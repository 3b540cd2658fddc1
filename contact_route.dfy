/** The contact form endpoint: every field is required and the email must have the
    shape `^[^\s@]+@[^\s@]+\.[^\s@]+$`; nothing is sent anywhere. */
module ContactRoute {
  import opened Common
  import opened Records

  /** The fields of the JSON body; a field the body does not carry is `None`. */
  datatype ContactBody = ContactBody(
    name: Option<string>, email: Option<string>, subject: Option<string>, message: Option<string>)

  /** A character of the class `[^\s@]`. */
  predicate Plain(c: char) {
    !IsSpace(c) && c != '@'
  }

  /** What the regular expression accepts: one '@' at `at` with text before it,
      a '.' at `dot` with text on both sides between the '@' and the end, and
      nothing else outside the class `[^\s@]`. */
  ghost predicate EmailShape(s: string) {
    exists at, dot :: 0 < at && at + 1 < dot < |s| - 1 && s[at] == '@' && s[dot] == '.' &&
      PlainExcept(s, at)
  }

  /** Every character but the one at `at` is of the class `[^\s@]`. */
  predicate PlainExcept(s: string, at: int) {
    forall k :: 0 <= k < |s| && k != at ==> Plain(s[k])
  }

  predicate AllPlain(s: string) {
    forall k :: 0 <= k < |s| ==> Plain(s[k])
  }

  /** `emailRegex.test(email)`: split at the first '@', then look for a '.' with
      text on both sides in the rest. */
  predicate MatchesEmail(s: string) {
    if '@' !in s then false
    else
      var at := IndexOf(s, '@');
      0 < at && AllPlain(s[..at]) && AllPlain(s[at + 1..]) && |s| - at >= 4 &&
      '.' in s[at + 2..|s| - 1]
  }

  /** The matcher accepts exactly the strings of the expression's shape. */
  lemma MatchesEmailShape(s: string)
    ensures MatchesEmail(s) <==> EmailShape(s)
  {
    if MatchesEmail(s) {
      var at := IndexOf(s, '@');
      var m := s[at + 2..|s| - 1];
      var d := IndexOf(m, '.');
      var dot := at + 2 + d;
      assert s[dot] == m[d];
      forall k | 0 <= k < |s| && k != at ensures Plain(s[k]) {
        if k < at { assert s[k] == s[..at][k]; } else { assert s[k] == s[at + 1..][k - at - 1]; }
      }
      assert 0 < at && at + 1 < dot < |s| - 1 && s[at] == '@' && s[dot] == '.';
    }
    if EmailShape(s) {
      var at, dot :| 0 < at && at + 1 < dot < |s| - 1 && s[at] == '@' && s[dot] == '.' &&
        PlainExcept(s, at);
      assert '@' in s by { assert s[at] == '@'; }
      var first := IndexOf(s, '@');
      assert first == at by { assert s[first] == '@'; }
      assert s[at + 2..|s| - 1][dot - at - 2] == '.';
      assert AllPlain(s[..at]) by {
        forall k | 0 <= k < at ensures Plain(s[..at][k]) { assert s[..at][k] == s[k]; }
      }
      assert AllPlain(s[at + 1..]) by {
        var tail := s[at + 1..];
        forall k | 0 <= k < |tail| ensures Plain(tail[k]) { assert tail[k] == s[at + 1 + k]; }
      }
    }
  }

  /** An address with two '@' is always refused. */
  lemma TwoAtsRejected(s: string, i: int, j: int)
    requires 0 <= i < j < |s| && s[i] == '@' && s[j] == '@'
    ensures !MatchesEmail(s)
  {
    MatchesEmailShape(s);
    forall at | 0 <= at < |s| ensures !PlainExcept(s, at) {
      if i != at { assert !Plain(s[i]); } else { assert !Plain(s[j]); }
    }
  }

  /** An accepted address holds no white space. */
  lemma NoWhiteSpace(s: string)
    requires MatchesEmail(s)
    ensures forall k :: 0 <= k < |s| ==> !IsSpace(s[k])
  {
    MatchesEmailShape(s);
    var at, dot :| 0 < at && at + 1 < dot < |s| - 1 && s[at] == '@' && s[dot] == '.' &&
        PlainExcept(s, at);
  }

  /** A plain address is accepted, and so is one whose domain has several dots. */
  lemma AcceptsPlainAddress()
    ensures MatchesEmail("a@b.c")
  {
    var s := "a@b.c";
    assert 0 < 1 && 1 + 1 < 3 < |s| - 1 && s[1] == '@' && s[3] == '.';
    assert PlainExcept(s, 1);
    MatchesEmailShape(s);
  }

  lemma AcceptsSubdomains()
    ensures MatchesEmail("me@x.y.org")
  {
    var s := "me@x.y.org";
    assert 0 < 2 && 2 + 1 < 4 < |s| - 1 && s[2] == '@' && s[4] == '.';
    assert PlainExcept(s, 2);
    MatchesEmailShape(s);
  }

  /** A '.' needs text after it. */
  lemma RefusesTrailingDot()
    ensures !MatchesEmail("a@b.")
  {
    assert IndexOf("a@b.", '@') == 1;
  }

  /** `name && email && subject && message`. */
  predicate Complete(b: ContactBody) {
    Truthy(b.name) && Truthy(b.email) && Truthy(b.subject) && Truthy(b.message)
  }

  const Sent := "Message sent successfully"

  /** POST: 500 when the body cannot be read, 400 when a field is missing or empty
      and then when the email has the wrong shape, 200 otherwise. */
  function Post(body: Option<ContactBody>): (resp: Response<string>)
    ensures body.None? ==> resp == Error(500, "Failed to send message")
    ensures body.Some? && !Complete(body.value) ==> resp == Error(400, "All fields are required")
    ensures body.Some? && Complete(body.value) && !MatchesEmail(body.value.email.value) ==>
      resp == Error(400, "Invalid email format")
    ensures resp.Json? <==> (body.Some? && Complete(body.value) && MatchesEmail(body.value.email.value))
    ensures resp.Json? ==> resp == Json(200, Sent)
  {
    if body.None? then Error(500, "Failed to send message")
    else
      var b := body.value;
      if !Truthy(b.name) || !Truthy(b.email) || !Truthy(b.subject) || !Truthy(b.message) then
        Error(400, "All fields are required")
      else if !MatchesEmail(b.email.value) then Error(400, "Invalid email format")
      else Json(200, Sent)
  }
}
