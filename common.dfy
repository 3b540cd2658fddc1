/** Values and string operations shared by every part of the site model.
    Strings are sequences of characters; only the ASCII behaviour of
    JavaScript's `toLowerCase`, `trim` and the regular-expression classes
    `\s` and `\w` is modelled. */
module Common {

  datatype Option<T> = None | Some(value: T)

  /** Outcome of an operation that may throw: the thrown error carries a message. */
  datatype Outcome = Done | Threw(message: string)

  /** A value, or the error an operation threw instead of returning one. */
  datatype Result<T> = Ok(value: T) | Err(message: string)

  /** JavaScript truthiness of an optional string (`undefined` and "" are falsy). */
  predicate Truthy(s: Option<string>) {
    s.Some? && s.value != ""
  }

  /** `s || fallback` for an optional string. */
  function OrElse(s: Option<string>, fallback: string): string {
    if Truthy(s) then s.value else fallback
  }

  /** The ASCII members of JavaScript's `\s` class (what `trim` removes). */
  predicate IsSpace(c: char) {
    c == ' ' || c == '\t' || c == '\n' || c == '\r' || c == '\U{000B}' || c == '\U{000C}'
  }

  predicate IsUpper(c: char) { 'A' <= c <= 'Z' }
  predicate IsLower(c: char) { 'a' <= c <= 'z' }
  predicate IsDigit(c: char) { '0' <= c <= '9' }

  /** The members of JavaScript's `\w` class: ASCII letters, digits and '_'. */
  predicate IsWordChar(c: char) {
    IsUpper(c) || IsLower(c) || IsDigit(c) || c == '_'
  }

  function LowerChar(c: char): char {
    if IsUpper(c) then (c as int + 32) as char else c
  }

  function UpperChar(c: char): char {
    if IsLower(c) then (c as int - 32) as char else c
  }

  /** `s.toLowerCase()` on ASCII letters; every other character is kept. */
  function ToLower(s: string): (r: string)
    ensures |r| == |s|
    ensures forall i :: 0 <= i < |s| ==> r[i] == LowerChar(s[i])
  {
    if s == [] then [] else [LowerChar(s[0])] + ToLower(s[1..])
  }

  /** `s.trimStart()`. */
  function TrimStart(s: string): (r: string)
    ensures |r| <= |s| && r == s[|s| - |r|..]
    ensures r != [] ==> !IsSpace(r[0])
    ensures forall i :: 0 <= i < |s| - |r| ==> IsSpace(s[i])
  {
    if s != [] && IsSpace(s[0]) then TrimStart(s[1..]) else s
  }

  /** `s.trimEnd()`. */
  function TrimEnd(s: string): (r: string)
    ensures |r| <= |s| && r == s[..|r|]
    ensures r != [] ==> !IsSpace(r[|r| - 1])
    ensures forall i :: |r| <= i < |s| ==> IsSpace(s[i])
  {
    if s != [] && IsSpace(s[|s| - 1]) then TrimEnd(s[..|s| - 1]) else s
  }

  /** `s.trim()`: the longest infix of `s` that neither starts nor ends with white space. */
  function Trim(s: string): (r: string)
    ensures |r| <= |s|
    ensures InfixAt(s, r, |s| - |TrimStart(s)|)
    ensures forall c :: c in r ==> c in s
    ensures r != [] ==> !IsSpace(r[0]) && !IsSpace(r[|r| - 1])
    ensures s == [] || (!IsSpace(s[0]) && !IsSpace(s[|s| - 1])) ==> r == s
  {
    TrimParts(s, TrimStart(s), TrimEnd(TrimStart(s)));
    TrimEnd(TrimStart(s))
  }

  lemma TrimParts(s: string, t: string, r: string)
    requires t == TrimStart(s) && r == TrimEnd(t)
    ensures InfixAt(s, r, |s| - |t|)
    ensures forall c :: c in r ==> c in s
    ensures s == [] || (!IsSpace(s[0]) && !IsSpace(s[|s| - 1])) ==> r == s
  {
    PrefixOfSuffix(s, t, r);
    if s == [] {
      assert t == s;
    } else if !IsSpace(s[0]) && !IsSpace(s[|s| - 1]) {
      assert t == s;
    }
  }

  /** A prefix of a suffix of `s` is an infix of `s`. */
  lemma PrefixOfSuffix(s: string, t: string, r: string)
    requires |t| <= |s| && t == s[|s| - |t|..]
    requires |r| <= |t| && r == t[..|r|]
    ensures InfixAt(s, r, |s| - |t|)
    ensures forall c :: c in r ==> c in s
  {
    var k := |s| - |t|;
    forall i | 0 <= i < |r| ensures s[k..k + |r|][i] == r[i] {
      assert r[i] == t[i] == s[k + i];
    }
    assert s[k..k + |r|] == r;
    forall c | c in r ensures c in s {
      var i :| 0 <= i < |r| && r[i] == c;
      assert s[k + i] == c;
    }
  }

  /** A string is blank when `s.trim()` is empty. */
  predicate IsBlank(s: string) { Trim(s) == "" }

  predicate StartsWith(s: string, prefix: string) {
    |prefix| <= |s| && s[..|prefix|] == prefix
  }

  predicate EndsWith(s: string, suffix: string) {
    |suffix| <= |s| && s[|s| - |suffix|..] == suffix
  }

  /** A prefix of a string is a prefix of every extension of it. */
  lemma StartsWithAppend(s: string, prefix: string, t: string)
    requires StartsWith(s, prefix)
    ensures StartsWith(s + t, prefix)
  {
    assert (s + t)[..|prefix|] == s[..|prefix|];
  }

  /** A string ends with what was appended to it. */
  lemma EndsWithAppend(s: string, t: string)
    ensures EndsWith(s + t, t)
  {
    assert (s + t)[|s|..] == t;
  }

  /** `sub` occurs in `s` at index `i`. */
  predicate InfixAt(s: string, sub: string, i: int) {
    0 <= i <= |s| - |sub| && s[i..i + |sub|] == sub
  }

  /** `s.includes(sub)`. */
  predicate Includes(s: string, sub: string) {
    exists i | 0 <= i <= |s| - |sub| :: InfixAt(s, sub, i)
  }

  /** What occurs in a string occurs in every string around it. */
  lemma IncludesWithin(x: string, s: string, y: string, sub: string)
    requires Includes(s, sub)
    ensures Includes(x + s + y, sub)
  {
    var i :| 0 <= i <= |s| - |sub| && InfixAt(s, sub, i);
    assert (x + s + y)[|x| + i..|x| + i + |sub|] == s[i..i + |sub|];
    assert InfixAt(x + s + y, sub, |x| + i);
  }

  lemma IncludesTransitive(s: string, t: string, u: string)
    requires Includes(s, t) && Includes(t, u)
    ensures Includes(s, u)
  {
    var i :| 0 <= i <= |s| - |t| && InfixAt(s, t, i);
    var j :| 0 <= j <= |t| - |u| && InfixAt(t, u, j);
    forall k | 0 <= k < |u| ensures s[i + j + k] == u[k] {
      assert s[i + j + k] == s[i..i + |t|][j + k] == t[j + k] == t[j..j + |u|][k];
    }
    assert s[i + j..i + j + |u|] == u;
    assert InfixAt(s, u, i + j);
  }

  /** Every part occurs in the join. */
  lemma {:induction false} JoinIncludes(parts: seq<string>, sep: string, k: int)
    requires 0 <= k < |parts|
    ensures Includes(Join(parts, sep), parts[k])
    decreases |parts|
  {
    if |parts| == 1 {
      assert InfixAt(parts[0], parts[0], 0);
    } else if k == 0 {
      assert InfixAt(Join(parts, sep), parts[0], 0);
    } else {
      JoinIncludes(parts[1..], sep, k - 1);
      IncludesWithin(parts[0] + sep, Join(parts[1..], sep), "", parts[k]);
      assert parts[0] + sep + Join(parts[1..], sep) + "" == Join(parts, sep);
    }
  }

  /** Decimal rendering of an integer, as template literals print numbers. */
  function IntToString(n: int): (r: string)
    ensures r != []
  {
    if n < 0 then "-" + NatToString(-n) else NatToString(n)
  }

  function NatToString(n: nat): (r: string)
    ensures r != []
    ensures forall i :: 0 <= i < |r| ==> IsDigit(r[i])
    decreases n
  {
    if n < 10 then [DigitChar(n)] else NatToString(n / 10) + [DigitChar(n % 10)]
  }

  function DigitChar(d: nat): (c: char)
    requires d < 10
    ensures IsDigit(c)
  {
    ('0' as int + d) as char
  }

  /** `parts.join(sep)`. */
  function Join(parts: seq<string>, sep: string): string {
    if parts == [] then ""
    else if |parts| == 1 then parts[0]
    else parts[0] + sep + Join(parts[1..], sep)
  }

  /** A join of at least two parts ends with the separator and the last part. */
  lemma {:induction false} JoinLast(parts: seq<string>, sep: string)
    requires |parts| >= 2
    ensures Join(parts, sep) == Join(parts[..|parts| - 1], sep) + sep + parts[|parts| - 1]
    decreases |parts|
  {
    if |parts| > 2 {
      JoinLast(parts[1..], sep);
      assert parts[1..][..|parts[1..]| - 1] == parts[..|parts| - 1][1..];
    }
  }

  /** A join of at least two parts starts with the first part and the separator. */
  lemma JoinFirst(parts: seq<string>, sep: string)
    requires |parts| >= 2
    ensures StartsWith(Join(parts, sep), parts[0] + sep)
  {
    assert Join(parts, sep) == parts[0] + sep + Join(parts[1..], sep);
  }

  /** `s.split(sep)` for a one-character separator: the pieces between separators. */
  function Split(s: string, sep: char): (r: seq<string>)
    ensures |r| >= 1
    ensures forall i :: 0 <= i < |r| ==> sep !in r[i]
    decreases |s|
  {
    if sep !in s then [s]
    else
      var k := IndexOf(s, sep);
      [s[..k]] + Split(s[k + 1..], sep)
  }

  /** The index of the first occurrence of `c` in `s`. */
  function IndexOf(s: string, c: char): (k: nat)
    requires c in s
    ensures k < |s| && s[k] == c && c !in s[..k]
  {
    if s[0] == c then 0 else 1 + IndexOf(s[1..], c)
  }

  /** Texts between two "---" texts, joined by newlines and ended by one. */
  lemma FencedJoin(texts: seq<string>)
    requires |texts| >= 2 && texts[0] == "---" && texts[|texts| - 1] == "---"
    ensures StartsWith(Join(texts, "\n") + "\n", "---\n") && EndsWith(Join(texts, "\n") + "\n", "\n---\n")
  {
    var joined := Join(texts, "\n");
    JoinFirst(texts, "\n");
    assert "---" + "\n" == "---\n";
    StartsWithAppend(joined, "---\n", "\n");
    JoinLast(texts, "\n");
    var init := Join(texts[..|texts| - 1], "\n");
    assert joined + "\n" == init + "\n---\n";
    EndsWithAppend(init, "\n---\n");
  }
}
