/**
 * The sign-in form: submitting validates the two fields, calls the
 * authentication service at most once and reports the outcome; the demo
 * account cards fill the fields; a signed-in user is sent home. The
 * authentication service is a parameter `accepts` saying which pairs of
 * email and password it accepts.
 */
module Login {
  import opened Wrappers
  import opened Types
  import MockData

  const MissingFieldsMessage := "Please enter both email and password"
  const RejectedMessage := "Invalid email or password"

  /**
   * The message a submit leaves: it is cleared first, so it depends only on
   * this submit's fields and the service's answer, never on an earlier one.
   */
  function SubmitMessage(email: string, password: string, accepts: (string, string) -> bool): (r: string)
    ensures r == "" <==> email != "" && password != "" && accepts(email, password)
    ensures r == MissingFieldsMessage <==> email == "" || password == ""
    ensures r == RejectedMessage <==> email != "" && password != "" && !accepts(email, password)
  {
    if email == "" || password == "" then MissingFieldsMessage
    else if accepts(email, password) then ""
    else RejectedMessage
  }

  /** A demo account card: its label, email and password. */
  datatype Credential = Credential(role: string, email: string, password: string)

  const DemoCredentials := [
    Credential("Admin", "admin@edutrack.com", "password"),
    Credential("Faculty", "faculty@edutrack.com", "password"),
    Credential("Student", "student@edutrack.com", "password")
  ]

  /** Each demo card names the email of the seed user with that role, and its fields are never empty. */
  lemma DemoCredentialsMatchUsers()
    ensures DemoCredentials[0].email == MockData.AdminUser.email && MockData.AdminUser.role == Admin
    ensures DemoCredentials[1].email == MockData.FacultyUser.email && MockData.FacultyUser.role == Faculty
    ensures DemoCredentials[2].email == MockData.StudentUser.email && MockData.StudentUser.role == StudentRole
    ensures forall c :: c in DemoCredentials ==> c.email != "" && c.password != ""
  {
  }

  /** What the route shows. */
  datatype LoginView = Form | RedirectTo(path: string)

  /** A signed-in user is sent to '/' instead of seeing the form. */
  function View(user: Option<User>): (r: LoginView)
    ensures r.RedirectTo? <==> user.Some?
    ensures r.RedirectTo? ==> r.path == "/"
  {
    if user.Some? then RedirectTo("/") else Form
  }

  /** The form's state, with the log of the calls made to the service. */
  class LoginPage {
    var email: string
    var password: string
    var errorMessage: string
    var loginCalls: seq<(string, string)>

    constructor()
      ensures email == "" && password == "" && errorMessage == "" && loginCalls == []
    {
      email := "";
      password := "";
      errorMessage := "";
      loginCalls := [];
    }

    method SetEmail(value: string)
      modifies this
      ensures email == value && password == old(password) && errorMessage == old(errorMessage) && loginCalls == old(loginCalls)
    {
      email := value;
    }

    method SetPassword(value: string)
      modifies this
      ensures password == value && email == old(email) && errorMessage == old(errorMessage) && loginCalls == old(loginCalls)
    {
      password := value;
    }

    /** A click on a demo account card sets both fields to that account's values. */
    method FillDemo(cred: Credential)
      modifies this
      ensures email == cred.email && password == cred.password
      ensures errorMessage == old(errorMessage) && loginCalls == old(loginCalls)
    {
      email := cred.email;
      password := cred.password;
    }

    /**
     * `handleSubmit`: clear the message; with a field empty, complain and
     * stop; otherwise call the service once and report a rejection.
     */
    method HandleSubmit(accepts: (string, string) -> bool)
      modifies this
      ensures errorMessage == SubmitMessage(email, password, accepts)
      ensures email == "" || password == "" ==> loginCalls == old(loginCalls)
      ensures email != "" && password != "" ==> loginCalls == old(loginCalls) + [(email, password)]
      ensures email == old(email) && password == old(password)
    {
      errorMessage := "";
      if email == "" || password == "" {
        errorMessage := MissingFieldsMessage;
        return;
      }
      loginCalls := loginCalls + [(email, password)];
      if !accepts(email, password) {
        errorMessage := RejectedMessage;
      }
    }
  }

  /** Choosing a demo card and submitting calls the service exactly once, with that card's email and password. */
  method DemoSignIn(page: LoginPage, cred: Credential, accepts: (string, string) -> bool)
    requires cred in DemoCredentials
    modifies page
    ensures page.loginCalls == old(page.loginCalls) + [(cred.email, cred.password)]
    ensures page.errorMessage == "" <==> accepts(cred.email, cred.password)
  {
    DemoCredentialsMatchUsers();
    page.FillDemo(cred);
    page.HandleSubmit(accepts);
  }
}
