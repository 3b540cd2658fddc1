/** The author identity: the configured author name and email, and the check that
    a commenter is the author. */
module Author {
  import opened Common

  /** The two environment variables, absent when unset. */
  datatype Config = Config(nameVar: Option<string>, emailVar: Option<string>)

  /** `AUTHOR_NAME`: the variable, or "Your Name". */
  function AuthorName(c: Config): (name: string)
    ensures !Truthy(c.nameVar) ==> name == "Your Name"
    ensures Truthy(c.nameVar) ==> name == c.nameVar.value
  {
    OrElse(c.nameVar, "Your Name")
  }

  /** `AUTHOR_EMAIL`: the variable, or "". */
  function AuthorEmail(c: Config): (email: string)
    ensures email == "" <==> !Truthy(c.emailVar)
  {
    OrElse(c.emailVar, "")
  }

  /** `s.toLowerCase().trim()`. */
  function Normal(s: string): string {
    Trim(ToLower(s))
  }

  /** `isAuthor(name, email)`: the names agree up to case and surrounding white
      space; when an email is given and an author email is configured, the emails
      must agree in the same way as well. */
  predicate IsAuthor(c: Config, name: string, email: Option<string>) {
    var nameMatch := Normal(name) == Normal(AuthorName(c));
    if Truthy(email) && AuthorEmail(c) != "" then nameMatch && Normal(email.value) == Normal(AuthorEmail(c))
    else nameMatch
  }

  /** `getAuthorDisplayName()`. */
  function DisplayName(c: Config): (name: string)
    ensures name == AuthorName(c)
  {
    AuthorName(c)
  }

  /** Without an email to compare, only the names are compared. */
  lemma NameOnly(c: Config, name: string, email: Option<string>)
    requires !Truthy(email) || !Truthy(c.emailVar)
    ensures IsAuthor(c, name, email) <==> Normal(name) == Normal(AuthorName(c))
  {
  }

  /** With both emails present, both the names and the emails have to agree. */
  lemma NameAndEmail(c: Config, name: string, email: string)
    requires email != "" && Truthy(c.emailVar)
    ensures IsAuthor(c, name, Some(email)) <==>
      Normal(name) == Normal(AuthorName(c)) && Normal(email) == Normal(c.emailVar.value)
  {
  }

  /** Giving an email can only make the check stricter. */
  lemma EmailIsStricter(c: Config, name: string, email: Option<string>)
    ensures IsAuthor(c, name, email) ==> IsAuthor(c, name, None)
  {
  }

  /** The displayed author name passes the check. */
  lemma DisplayNameIsAuthor(c: Config)
    ensures IsAuthor(c, DisplayName(c), None)
  {
  }

  /** Lower-casing a character twice is lower-casing it once. */
  lemma ToLowerIdempotent(s: string)
    ensures ToLower(ToLower(s)) == ToLower(s)
  {
  }

  /** The check ignores the case of the name. */
  lemma {:induction false} CaseInsensitive(c: Config, name: string, email: Option<string>)
    ensures IsAuthor(c, ToLower(name), email) <==> IsAuthor(c, name, email)
  {
    ToLowerIdempotent(name);
  }

  /** Unset, the author is "Your Name", in any case. */
  lemma DefaultAuthor(name: string)
    requires Normal(name) == Normal("Your Name")
    ensures IsAuthor(Config(None, None), name, None)
  {
  }
}
