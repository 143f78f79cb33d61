/**
 * UserRegistrationRequestDTO: the registration form, its bean-validation
 * constraints as a predicate, and the profile-picture check.
 */
module Registration {
  import opened Wrappers
  import opened JavaText

  datatype RegistrationRequest = RegistrationRequest(
    username: Option<string>,
    fullName: Option<string>,
    email: Option<string>,
    password: Option<string>,
    profilePictureUrl: Option<string>)

  /** `@NotBlank` (Hibernate Validator): non-null and non-empty after `trim`. */
  predicate NotBlank(v: Option<string>) {
    v.Some? && Trim(v.value) != []
  }

  /** `@Size(min, max)`: a null value passes; otherwise the length is within the bounds. */
  predicate SizeBetween(v: Option<string>, min: nat, max: Option<nat>) {
    v.None? || (min <= |v.value| && (max.None? || |v.value| <= max.value))
  }

  /** The field constraints checked by `@Valid` before the request reaches the service. */
  predicate IsValidRequest(req: RegistrationRequest) {
    && NotBlank(req.username) && SizeBetween(req.username, 3, Some(20))
    && NotBlank(req.email)
    && NotBlank(req.password) && SizeBetween(req.password, 8, None)
  }

  /** What a valid request guarantees about each field. */
  lemma ValidRequestFields(req: RegistrationRequest)
    requires IsValidRequest(req)
    ensures req.username.Some? && 3 <= |req.username.value| <= 20
    ensures exists i :: 0 <= i < |req.username.value| && !IsTrimmed(req.username.value[i])
    ensures req.email.Some? && exists i :: 0 <= i < |req.email.value| && !IsTrimmed(req.email.value[i])
    ensures req.password.Some? && |req.password.value| >= 8
  {
    TrimEmpty(req.username.value);
    TrimEmpty(req.email.value);
  }

  /** `isProfilePictureUrlValid`: `url != null && !url.trim().isEmpty()`. */
  predicate IsProfilePictureUrlValid(req: RegistrationRequest) {
    req.profilePictureUrl.Some? && Trim(req.profilePictureUrl.value) != []
  }

  /** The URL is valid exactly when it is present and has a character above U+0020. */
  lemma ProfilePictureUrlValidIff(req: RegistrationRequest)
    ensures IsProfilePictureUrlValid(req) <==>
              req.profilePictureUrl.Some? &&
              exists i :: 0 <= i < |req.profilePictureUrl.value| && !IsTrimmed(req.profilePictureUrl.value[i])
  {
    if req.profilePictureUrl.Some? {
      TrimEmpty(req.profilePictureUrl.value);
    }
  }

  /** An empty URL, or one of spaces and control characters only, is not valid. */
  lemma BlankUrlsInvalid(req: RegistrationRequest)
    requires req.profilePictureUrl.Some?
    requires forall i :: 0 <= i < |req.profilePictureUrl.value| ==> IsTrimmed(req.profilePictureUrl.value[i])
    ensures !IsProfilePictureUrlValid(req)
  {
    TrimEmpty(req.profilePictureUrl.value);
  }
}
