/**
 * The user service: the profile of the signed-in user, partial profile updates
 * (with a hashed password and an uploaded image), logout, and the mapping of
 * errors to HTTP exceptions. The signed-in user is found by email.
 */
module UserService {
  import opened Wrappers
  import opened Errors
  import opened Crypto
  import opened Model
  import opened Database

  const UserNotFound := "User not found"
  const TokenRequired := "Token must be provided"
  const UploadFailedText := "Failed to upload image to Cloudinary"
  const LoggedOut := "Log out successful"

  /** The body of a profile update after validation; its schema is not part of this model. */
  datatype UpdateUserRequest = UpdateUserRequest(name: Option<string>, password: Option<string>, role: Option<Role>)

  /** What the image upload service did with the file: the secure URL of the stored
      image, or a failure (an empty result or an error). */
  datatype Upload = Uploaded(secureUrl: string) | UploadFailed

  /** A string that JavaScript treats as true: present and not empty. */
  predicate Truthy(s: Option<string>)
  {
    s.Some? && s.value != ""
  }

  /** The profile the service returns: the image, but no password and no token. */
  function ToUserResponse(u: User): (r: UserResponse)
    ensures r.id == u.id && r.name == u.name && r.email == u.email && r.role == u.role
    ensures r.image == Included(u.image) && r.accessToken == Omitted
  {
    UserResponse(u.id, u.name, u.email, u.role, Included(u.image), Omitted)
  }

  /** The profile does not depend on the password or the tokens. */
  lemma ToUserResponseHidesSecrets(u: User, password: Option<string>, accessToken: Option<string>, refreshToken: Option<string>)
    ensures ToUserResponse(u.(password := password, accessToken := accessToken, refreshToken := refreshToken))
         == ToUserResponse(u)
  {
  }

  /** handleError: an Unauthorized or a NotFound is rethrown, and every other error becomes
      an InternalServerError constructed from it. */
  function HandleError(e: Exception): (r: Exception)
    ensures r.IsHttp()
    ensures e.Unauthorized? || e.NotFound? ==> r == e
    ensures !(e.Unauthorized? || e.NotFound?) ==> r == InternalServerError(Wrapped(e))
  {
    if e.Unauthorized? || e.NotFound? then e else InternalServerError(Wrapped(e))
  }

  /** Unlike the task service's mapping, this one loses nothing: distinct errors stay distinct. */
  lemma HandleErrorInjective(a: Exception, b: Exception)
    ensures HandleError(a) == HandleError(b) ==> a == b
  {
  }

  /** uploadImage: the secure URL, or one InternalServerError whatever went wrong. */
  function UploadImage(file: Upload): (r: Result<string, Exception>)
    ensures r.Success? <==> file.Uploaded?
    ensures r.Success? ==> r.value == file.secureUrl
    ensures r.Failure? ==> r.error == InternalServerError(Text(UploadFailedText))
  {
    match file
    case Uploaded(url) => Success(url)
    case UploadFailed => Failure(InternalServerError(Text(UploadFailedText)))
  }

  /** The profile after an update, field by field: a truthy name or role replaces the
      stored one, a truthy password is stored as its hash, an uploaded file's URL
      becomes the image, and nothing else changes. */
  predicate UpdatedProfile(after: User, before: User, c: Primitives, q: UpdateUserRequest, file: Option<Upload>)
  {
    && after.id == before.id && after.email == before.email
    && after.accessToken == before.accessToken && after.refreshToken == before.refreshToken
    && after.name == (if Truthy(q.name) then q.name.value else before.name)
    && after.password == (if Truthy(q.password) then Some(c.hash(q.password.value)) else before.password)
    && after.role == (if Truthy(q.role) then q.role.value else before.role)
    && after.image == (if file.Some? && file.value.Uploaded? then Some(file.value.secureUrl) else before.image)
  }

  /** UpdatedUserData: the partial update built from a validated body and an optional
      uploaded file; it fails only when a file was given and its upload failed. */
  function UpdatedUserData(c: Primitives, q: UpdateUserRequest, file: Option<Upload>): (r: Result<UserPatch, Exception>)
    ensures r.Failure? <==> file.Some? && file.value.UploadFailed?
    ensures r.Failure? ==> r.error == InternalServerError(Text(UploadFailedText))
    ensures r.Success? ==> forall u :: UpdatedProfile(ApplyUserPatch(u, r.value), u, c, q, file)
  {
    var upload := if file.Some? then Some(UploadImage(file.value)) else None;
    if upload.Some? && upload.value.Failure? then Failure(upload.value.error)
    else
      Success(UserPatch(
        if Truthy(q.name) then q.name else None,
        if Truthy(q.password) then Some(c.hash(q.password.value)) else None,
        if Truthy(q.role) then q.role else None,
        if upload.Some? then Some(upload.value.value) else None,
        None, None))
  }

  class UserService {
    const db: Database
    const crypto: Primitives

    constructor (db: Database, crypto: Primitives)
      ensures this.db == db && this.crypto == crypto
    {
      this.db, this.crypto := db, crypto;
    }

    /** The profile of the user with the email, refused when there is no such user or
        when the user holds no access token (null or empty). */
    method Get(user: User) returns (r: Result<UserResponse, Exception>)
      requires db.Valid()
      ensures r.Failure? ==> r.error.Unauthorized?
      ensures db.FindUserByEmail(user.email).None? ==> r == Failure(Unauthorized(Text(UserNotFound)))
      ensures db.FindUserByEmail(user.email).Some? ==>
        var u := db.FindUserByEmail(user.email).value;
        && (!Truthy(u.accessToken) ==> r == Failure(Unauthorized(Text(TokenRequired))))
        && (Truthy(u.accessToken) ==> r == Success(ToUserResponse(u)))
    {
      var currentUser := db.FindUserByEmail(user.email);
      if currentUser.None? {
        r := Failure(HandleError(Unauthorized(Text(UserNotFound))));
        return;
      }
      if !Truthy(currentUser.value.accessToken) {
        r := Failure(HandleError(Unauthorized(Text(TokenRequired))));
        return;
      }
      r := Success(ToUserResponse(currentUser.value));
    }

    /** Applies a validated profile update to the user with the email. `validated` is the
        outcome of validating the body, its issues when it was refused. */
    method Update(user: User, validated: Result<UpdateUserRequest, seq<Issue>>, file: Option<Upload>)
      returns (r: Result<UserResponse, Exception>)
      requires db.Valid()
      modifies db
      ensures db.Valid()
      ensures r.Failure? ==> unchanged(db)
      ensures db.emailIndex == old(db.emailIndex) && db.accounts == old(db.accounts) && db.tasks == old(db.tasks)
      ensures db.nextUserId == old(db.nextUserId) && db.nextTaskId == old(db.nextTaskId)
      ensures validated.Failure? ==> r == Failure(InternalServerError(Wrapped(ZodError(validated.error))))
      ensures validated.Success? && old(db.FindUserByEmail(user.email)).None? ==>
        r == Failure(NotFound(Text(UserNotFound)))
      ensures (validated.Success? && old(db.FindUserByEmail(user.email)).Some?
               && file.Some? && file.value.UploadFailed?) ==>
        r == Failure(InternalServerError(Wrapped(InternalServerError(Text(UploadFailedText)))))
      ensures (validated.Success? && old(db.FindUserByEmail(user.email)).Some?
               && !(file.Some? && file.value.UploadFailed?)) ==>
        var before := old(db.FindUserByEmail(user.email)).value;
        && before.id in db.users
        && db.users == old(db.users)[before.id := db.users[before.id]]
        && UpdatedProfile(db.users[before.id], before, crypto, validated.value, file)
        && r == Success(ToUserResponse(db.users[before.id]))
    {
      if validated.Failure? {
        r := Failure(HandleError(ZodError(validated.error)));
        return;
      }
      var existingUser := db.FindUserByEmail(user.email);
      if existingUser.None? {
        r := Failure(HandleError(NotFound(Text(UserNotFound))));
        return;
      }
      var data := UpdatedUserData(crypto, validated.value, file);
      if data.Failure? {
        r := Failure(HandleError(data.error));
        return;
      }
      var updatedUser := db.UpdateUser(existingUser.value.id, data.value);
      r := Success(ToUserResponse(updatedUser));
    }

    /** Clears the access token of the user with the email and nothing else. With no such
        user the store's error is wrapped as an InternalServerError. */
    method Logout(user: User) returns (r: Result<Done, Exception>)
      requires db.Valid()
      modifies db
      ensures db.Valid()
      ensures db.emailIndex == old(db.emailIndex) && db.accounts == old(db.accounts) && db.tasks == old(db.tasks)
      ensures db.nextUserId == old(db.nextUserId) && db.nextTaskId == old(db.nextTaskId)
      ensures old(db.FindUserByEmail(user.email)).Some? ==>
        var u := old(db.FindUserByEmail(user.email)).value;
        && db.users == old(db.users)[u.id := u.(accessToken := None)]
        && r == Success(Done(LoggedOut, true))
      ensures old(db.FindUserByEmail(user.email)).None? ==>
        && db.users == old(db.users)
        && r == Failure(InternalServerError(Wrapped(ForeignError(RecordNotFound))))
    {
      var updated := db.UpdateUserByEmail(user.email, NoUserChange.(accessToken := Some(None)));
      if updated.Failure? {
        r := Failure(HandleError(updated.error));
        return;
      }
      r := Success(Done(LoggedOut, true));
    }
  }
}
