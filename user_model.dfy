/** The user record, its Mongoose document with the pre-save hook and instance methods,
    and the collection the handlers query and update (src/models/user.model.js). */
module UserModel {
  import opened Base
  import opened Crypto
  import Jwt
  import Text

  /** A stored user record: the paths the schema declares. `refreshToken` is not one of
      them, so no record ever holds it. The createdAt/updatedAt timestamps are not
      modelled. */
  datatype User = User(
    id: Id,
    name: string,
    email: string,
    password: Secret,
    otp: Option<string>,
    otpExpire: Option<int>)
  {
    /** `isPasswordCorrect(password)`: bcrypt.compare against the stored hash. */
    predicate IsPasswordCorrect(candidate: Secret) {
      Verify(candidate, password)
    }

    /** The payload of an access token: `{_id, name, email}`. */
    function AccessClaims(): Jwt.Claims {
      Jwt.Claims(id, Some(name), Some(email))
    }

    /** The payload of a refresh token: `{_id}` only. */
    function RefreshClaims(): Jwt.Claims {
      Jwt.Claims(id, None, None)
    }

    /** `generateAccessToken()`. */
    function GenerateAccessToken(jwt: Jwt.Config): string {
      jwt.sign(AccessClaims(), jwt.accessSecret, jwt.accessExpiry)
    }

    /** `generateRefreshToken()`. */
    function GenerateRefreshToken(jwt: Jwt.Config): string {
      jwt.sign(RefreshClaims(), jwt.refreshSecret, jwt.refreshExpiry)
    }
  }

  /** Under a sound signer, each token verifies with its own secret to exactly its
      payload: the access token to `{_id, name, email}`, the refresh token to `{_id}`. */
  lemma IssuedTokensVerify(u: User, jwt: Jwt.Config)
    requires Jwt.Sound(jwt)
    ensures jwt.verify(u.GenerateAccessToken(jwt), jwt.accessSecret) == Some(Jwt.Claims(u.id, Some(u.name), Some(u.email)))
    ensures jwt.verify(u.GenerateRefreshToken(jwt), jwt.refreshSecret) == Some(Jwt.Claims(u.id, None, None))
  {
  }

  /** With separate secrets, neither token verifies as the other kind. */
  lemma IssuedTokensKeepTheirSecret(u: User, jwt: Jwt.Config)
    requires Jwt.SecretBound(jwt) && jwt.accessSecret != jwt.refreshSecret
    ensures jwt.verify(u.GenerateRefreshToken(jwt), jwt.accessSecret).None?
    ensures jwt.verify(u.GenerateAccessToken(jwt), jwt.refreshSecret).None?
  {
  }

  /** A record as handed out by `select("-password -refreshToken")`. */
  datatype PublicUser = PublicUser(
    id: Id,
    name: string,
    email: string,
    otp: Option<string>,
    otpExpire: Option<int>)

  function View(u: User): PublicUser {
    PublicUser(u.id, u.name, u.email, u.otp, u.otpExpire)
  }

  /** The view hides the password and nothing else: two records look the same from
      outside exactly when they differ at most in their password. */
  lemma ViewHidesOnlyPassword(u: User, w: User)
    ensures View(u) == View(w) <==> u.(password := w.password) == w
  {
  }

  /** A one-time code as forgotPassword stores it: four decimal digits, 1000 to 9999. */
  predicate IsOtpCode(s: string) {
    |s| == 4 && Text.AllDigits(s) && 1000 <= Text.ParseDecimal(s) <= 9999
  }

  /** What every stored record satisfies: the schema's required paths are non-empty,
      the password is a digest, and the OTP and its expiry are set together. */
  predicate WellFormed(u: User) {
    && u.name != ""
    && u.email != ""
    && u.password.Hashed?
    && (u.otp.Some? <==> u.otpExpire.Some?)
    && (u.otp.Some? ==> IsOtpCode(u.otp.value))
  }

  predicate DistinctIds(docs: seq<User>) {
    forall i, j :: 0 <= i < j < |docs| ==> docs[i].id != docs[j].id
  }

  /** The query `{_id: id}`. */
  function ById(id: Id): User -> bool {
    (u: User) => u.id == id
  }

  /** The query `{email}`. */
  function ByEmail(email: string): User -> bool {
    (u: User) => u.email == email
  }

  /** `findOne(query)`: the index of the first record in natural order that matches. */
  function FirstMatch(docs: seq<User>, query: User -> bool): (r: Option<nat>)
    ensures r.Some? ==> r.value < |docs| && query(docs[r.value])
    ensures r.Some? ==> forall j :: 0 <= j < r.value ==> !query(docs[j])
    ensures r.None? ==> forall j :: 0 <= j < |docs| ==> !query(docs[j])
  {
    if docs == [] then None
    else if query(docs[0]) then Some(0)
    else match FirstMatch(docs[1..], query)
      case None => None
      case Some(k) => Some(k + 1)
  }

  /** With distinct ids, looking a record up by its id finds exactly that record. */
  lemma FindById(docs: seq<User>, i: nat)
    requires DistinctIds(docs) && i < |docs|
    ensures FirstMatch(docs, ById(docs[i].id)) == Some(i)
  {
    var query := ById(docs[i].id);
    assert query(docs[i]);
    assert forall j :: 0 <= j < |docs| && j != i ==> !query(docs[j]);
  }

  /** A loaded Mongoose document: the record's paths, `isModified("password")`, and the
      `refreshToken` property a handler may assign. That property is a plain JavaScript
      property, not a schema path: `save` never writes it, whatever the schema's
      strictness. */
  class UserDocument {
    const id: Id
    var name: string
    var email: string
    var password: Secret
    var refreshToken: Option<string>
    var otp: Option<string>
    var otpExpire: Option<int>
    var passwordModified: bool

    function Record(): User
      reads this
    {
      User(id, name, email, password, otp, otpExpire)
    }

    /** A document holding `u`; a new document counts every path as modified. */
    constructor (u: User, isNew: bool)
      ensures Record() == u && refreshToken.None? && passwordModified == isNew
    {
      id := u.id;
      name := u.name;
      email := u.email;
      password := u.password;
      otp := u.otp;
      otpExpire := u.otpExpire;
      refreshToken := None;
      passwordModified := isNew;
    }

    /** The pre-save hook: the password is replaced by its hash only when it was modified. */
    method PreSave()
      modifies this`password
      ensures password == if passwordModified then Hash(old(password)) else old(password)
    {
      if passwordModified {
        password := Hash(password);
      }
    }

    /** `updatePassword(newPassword)`: stores the hash of the new password, clears the
        OTP and saves. Because the path is then modified, the hook hashes the hash: the
        record ends up with H(H(newPassword)). */
    method UpdatePassword(newPassword: Secret, store: UserStore)
      requires store.Valid() && store.Holds(this)
      modifies this, store`docs
      ensures store.Valid()
      ensures password == Hash(Hash(newPassword))
      ensures var i := old(store.IndexOf(id)).value;
        store.docs == old(store.docs)[i := old(Record()).(password := Hash(Hash(newPassword)), otp := None, otpExpire := None)]
    {
      password := Hash(newPassword);
      otp := None;
      otpExpire := None;
      passwordModified := true;
      store.Save(this);
    }
  }

  /** The `users` collection, in natural order. */
  class UserStore {
    var docs: seq<User>
    var nextId: Id

    /** The schema's invariants: required paths, hashed passwords, unique `_id` and
        unique `email` (the index `unique: true` creates). */
    ghost predicate Valid()
      reads this
    {
      && (forall i :: 0 <= i < |docs| ==> WellFormed(docs[i]) && docs[i].id < nextId)
      && (forall i, j :: 0 <= i < j < |docs| ==> docs[i].id != docs[j].id && docs[i].email != docs[j].email)
    }

    constructor ()
      ensures Valid() && docs == []
    {
      docs := [];
      nextId := 0;
    }

    function IndexOf(id: Id): Option<nat>
      reads this
    {
      FirstMatch(docs, ById(id))
    }

    function IndexOfEmail(email: string): Option<nat>
      reads this
    {
      FirstMatch(docs, ByEmail(email))
    }

    /** The document is a loaded copy of a stored record whose name and email it keeps. */
    ghost predicate Holds(doc: UserDocument)
      reads this, doc
    {
      && IndexOf(doc.id).Some?
      && doc.name == docs[IndexOf(doc.id).value].name
      && doc.email == docs[IndexOf(doc.id).value].email
    }

    /** The document can be saved without breaking the invariants. */
    ghost predicate Saveable(doc: UserDocument)
      reads this, doc
    {
      && Holds(doc)
      && (doc.passwordModified || doc.password.Hashed?)
      && (doc.otp.Some? <==> doc.otpExpire.Some?)
      && (doc.otp.Some? ==> IsOtpCode(doc.otp.value))
    }

    /** `User.create({name, email, password})`: the required validators, the unique
        index on email, the pre-save hook (a new document's password counts as modified),
        then the insert. */
    method Create(name: Option<string>, email: string, password: Secret) returns (created: Option<User>)
      requires Valid()
      modifies this
      ensures Valid()
      ensures created.None? <==> !Present(name) || email == "" || password == Plain("") || old(IndexOfEmail(email)).Some?
      ensures created.None? ==> docs == old(docs) && nextId == old(nextId)
      ensures created.Some? ==>
        && created.value == User(old(nextId), name.value, email, Hash(password), None, None)
        && docs == old(docs) + [created.value]
        && nextId == old(nextId) + 1
    {
      if !Present(name) || email == "" || password == Plain("") {
        return None;
      }
      if IndexOfEmail(email).Some? {
        return None;
      }
      var doc := new UserDocument(User(nextId, name.value, email, password, None, None), true);
      doc.PreSave();
      docs := docs + [doc.Record()];
      nextId := nextId + 1;
      created := Some(doc.Record());
    }

    /** Loads the document of the record at index `i`, nothing modified yet. */
    method Load(i: nat) returns (doc: UserDocument)
      requires i < |docs|
      ensures fresh(doc) && doc.Record() == docs[i] && doc.refreshToken.None? && !doc.passwordModified
    {
      doc := new UserDocument(docs[i], false);
    }

    /** `doc.save()`: runs the pre-save hook, then writes the document's schema paths over
        the record with its `_id`; its `refreshToken` property is not among them. */
    method Save(doc: UserDocument)
      requires Valid() && Saveable(doc)
      modifies this`docs, doc`password, doc`passwordModified
      ensures Valid()
      ensures doc.password == if old(doc.passwordModified) then Hash(old(doc.password)) else old(doc.password)
      ensures !doc.passwordModified
      ensures var i := old(IndexOf(doc.id)).value;
        docs == old(docs)[i := doc.Record()]
    {
      doc.PreSave();
      doc.passwordModified := false;
      var i := IndexOf(doc.id).value;
      docs := docs[i := doc.Record()];
    }
  }
}
