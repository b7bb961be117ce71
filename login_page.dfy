/**
 * The sign-in page (`LoginPage`): two forms validated by zod schemas, a login
 * that navigates to `/chats` on success, and a sign-up that creates the
 * profile row when the auth service returns a user. The auth and table
 * answers arrive as parameters; the email syntax check is the parameter
 * `isEmail`.
 */
module LoginPage {
  import opened Wrappers
  import opened Text

  datatype LoginValues = LoginValues(email: string, password: string)
  datatype SignupValues = SignupValues(name: string, email: string, password: string, phone: string)

  const MinPassword := 6
  const MinName := 2
  const MinPhone := 10
  const ChatsPath := "/chats"

  /** `loginSchema`: a well-formed email and a password of at least six UTF-16 code units. */
  predicate LoginValid(isEmail: string -> bool, v: LoginValues) {
    isEmail(v.email) && Utf16Length(v.password) >= MinPassword
  }

  /** `signupSchema`, the login schema extended by a name and a phone number, both checked by length only. */
  predicate SignupValid(isEmail: string -> bool, v: SignupValues) {
    && LoginValid(isEmail, LoginValues(v.email, v.password))
    && Utf16Length(v.name) >= MinName
    && Utf16Length(v.phone) >= MinPhone
  }

  /** For text in the Basic Multilingual Plane the length rules count characters. */
  lemma BmpLengthRules(isEmail: string -> bool, v: SignupValues)
    requires forall i :: 0 <= i < |v.password| ==> v.password[i] as int <= 0xFFFF
    requires forall i :: 0 <= i < |v.name| ==> v.name[i] as int <= 0xFFFF
    requires forall i :: 0 <= i < |v.phone| ==> v.phone[i] as int <= 0xFFFF
    ensures SignupValid(isEmail, v) <==>
              isEmail(v.email) && |v.password| >= 6 && |v.name| >= 2 && |v.phone| >= 10
  {
  }

  /** The phone number is checked by length only: ten letters pass. */
  lemma PhoneIsNotCheckedForDigits(isEmail: string -> bool, email: string)
    requires isEmail(email)
    ensures SignupValid(isEmail, SignupValues("Al", email, "secret", "abcdefghij"))
  {
  }

  /** The row the sign-up inserts into `profiles`. */
  datatype ProfileRow = ProfileRow(id: string, displayName: string, phoneNumber: string)

  datatype Toast = Toast(title: string, description: string, destructive: bool)

  class Page {
    var isLoading: bool
    var toasts: seq<Toast>
    var location: Option<string>

    constructor ()
      ensures !isLoading && toasts == [] && location == None
    {
      isLoading := false;
      toasts := [];
      location := None;
    }

    /** The login form's submit up to the auth call: only valid values reach `onLoginSubmit`. */
    method BeginLogin(isEmail: string -> bool, v: LoginValues) returns (submitted: bool)
      modifies this
      ensures submitted <==> LoginValid(isEmail, v)
      ensures isLoading == (submitted || old(isLoading))
      ensures toasts == old(toasts) && location == old(location)
    {
      submitted := LoginValid(isEmail, v);
      if submitted {
        isLoading := true;
      }
    }

    /** `onLoginSubmit` after `signInWithPassword`: navigate only without an error. */
    method FinishLogin(authError: Option<string>)
      modifies this
      ensures !isLoading
      ensures authError.None? ==>
                location == Some(ChatsPath) && toasts == old(toasts) + [Toast("Login successful", "Welcome back!", false)]
      ensures authError.Some? ==>
                location == old(location) && toasts == old(toasts) + [Toast("Login failed", authError.value, true)]
    {
      if authError.None? {
        toasts := toasts + [Toast("Login successful", "Welcome back!", false)];
        location := Some(ChatsPath);
      } else {
        toasts := toasts + [Toast("Login failed", authError.value, true)];
      }
      isLoading := false;
    }

    /** The sign-up form's submit up to the auth call: only valid values reach `onSignupSubmit`. */
    method BeginSignup(isEmail: string -> bool, v: SignupValues) returns (submitted: bool)
      modifies this
      ensures submitted <==> SignupValid(isEmail, v)
      ensures isLoading == (submitted || old(isLoading))
      ensures toasts == old(toasts) && location == old(location)
    {
      submitted := SignupValid(isEmail, v);
      if submitted {
        isLoading := true;
      }
    }

    /**
     * `onSignupSubmit` after `signUp` (and the profile insert, when there is
     * one). A sign-up error stops before the insert; without a returned user
     * nothing is inserted and nothing is shown; otherwise the profile row of
     * that user is inserted, and only if that succeeds does the page navigate.
     * The loading flag drops on every path.
     */
    method FinishSignup(v: SignupValues, signUpError: Option<string>, user: Option<string>, profileError: Option<string>)
      returns (inserted: Option<ProfileRow>)
      modifies this
      ensures !isLoading
      ensures inserted.Some? <==> signUpError.None? && user.Some?
      ensures inserted.Some? ==> inserted.value == ProfileRow(user.value, v.name, v.phone)
      ensures location == (if inserted.Some? && profileError.None? then Some(ChatsPath) else old(location))
      ensures signUpError.Some? ==> toasts == old(toasts) + [Toast("Signup failed", signUpError.value, true)]
      ensures signUpError.None? && user.None? ==> toasts == old(toasts)
      ensures inserted.Some? && profileError.Some? ==>
                toasts == old(toasts) + [Toast("Signup failed", profileError.value, true)]
      ensures inserted.Some? && profileError.None? ==>
                toasts == old(toasts) + [Toast("Account created successfully", "You can now log in with your credentials", false)]
    {
      inserted := None;
      if signUpError.Some? {
        toasts := toasts + [Toast("Signup failed", signUpError.value, true)];
      } else if user.Some? {
        inserted := Some(ProfileRow(user.value, v.name, v.phone));
        if profileError.Some? {
          toasts := toasts + [Toast("Signup failed", profileError.value, true)];
        } else {
          toasts := toasts + [Toast("Account created successfully", "You can now log in with your credentials", false)];
          location := Some(ChatsPath);
        }
      }
      isLoading := false;
    }
  }

  /**
   * A successful sign-up ends on `/chats` with the new profile row, and the
   * same email and password then pass the login form, whose success also
   * lands on `/chats`.
   */
  method SignupThenLoginExample(isEmail: string -> bool, v: SignupValues, user: string)
    returns (signedUp: bool, row: Option<ProfileRow>, loginSubmitted: bool, location: Option<string>, loading: bool)
    requires SignupValid(isEmail, v)
    ensures signedUp && loginSubmitted && !loading
    ensures row == Some(ProfileRow(user, v.name, v.phone))
    ensures location == Some(ChatsPath)
  {
    var page := new Page();
    signedUp := page.BeginSignup(isEmail, v);
    row := page.FinishSignup(v, None, Some(user), None);
    loginSubmitted := page.BeginLogin(isEmail, LoginValues(v.email, v.password));
    page.FinishLogin(None);
    location, loading := page.location, page.isLoading;
  }
}
