/** The few JavaScript string operations the app relies on, over `seq<char>`:
    `trim`, the quote-removing `replace(/['"]+/g, '')`, `toUpperCase`,
    `startsWith` and `Array.prototype.join`. */
module Text {

  /** The characters ECMAScript's `String.prototype.trim` removes:
      WhiteSpace (tab, VT, FF, space, NBSP, ZWNBSP and the Zs category)
      and LineTerminator (LF, CR, LS, PS). */
  predicate IsSpace(c: char) {
    || c == '\t' || c == '\n' || c == '\U{B}' || c == '\U{C}' || c == '\r' || c == ' '
    || c == '\U{A0}' || c == '\U{1680}' || ('\U{2000}' <= c <= '\U{200A}')
    || c == '\U{2028}' || c == '\U{2029}' || c == '\U{202F}' || c == '\U{205F}'
    || c == '\U{3000}' || c == '\U{FEFF}'
  }

  /** A string `trim` reduces to "", which JavaScript then treats as false. */
  predicate IsBlank(s: string) {
    forall k :: 0 <= k < |s| ==> IsSpace(s[k])
  }

  /** The number of white-space characters `s` starts with. */
  function LeadingSpaces(s: string): (n: nat)
    ensures n <= |s|
    ensures forall k :: 0 <= k < n ==> IsSpace(s[k])
    ensures n == |s| || !IsSpace(s[n])
  {
    if |s| > 0 && IsSpace(s[0]) then 1 + LeadingSpaces(s[1..]) else 0
  }

  /** The length of `s` without the white space it ends with. */
  function TrailingStart(s: string): (n: nat)
    ensures n <= |s|
    ensures forall k :: n <= k < |s| ==> IsSpace(s[k])
    ensures n == 0 || !IsSpace(s[n - 1])
  {
    if |s| > 0 && IsSpace(s[|s| - 1]) then TrailingStart(s[..|s| - 1]) else |s|
  }

  /** `s.trim()`: the infix of `s` left after dropping white space at both ends. */
  function Trim(s: string): (r: string)
    ensures LeadingSpaces(s) + |r| <= |s|
    ensures r == s[LeadingSpaces(s)..LeadingSpaces(s) + |r|]
    ensures forall k :: LeadingSpaces(s) + |r| <= k < |s| ==> IsSpace(s[k])
    ensures r == [] || (!IsSpace(r[0]) && !IsSpace(r[|r| - 1]))
    ensures r == [] <==> IsBlank(s)
  {
    var i := LeadingSpaces(s);
    var t := s[i..];
    var j := TrailingStart(t);
    assert forall k :: i + j <= k < |s| ==> s[k] == t[k - i];
    t[..j]
  }

  /** A string that neither starts nor ends with white space is its own trim. */
  lemma TrimUnpadded(s: string)
    requires s != [] && !IsSpace(s[0]) && !IsSpace(s[|s| - 1])
    ensures Trim(s) == s
  {
    assert LeadingSpaces(s) == 0;
  }

  predicate IsQuote(c: char) {
    c == '\'' || c == '"'
  }

  predicate HasQuote(s: string) {
    exists k :: 0 <= k < |s| && IsQuote(s[k])
  }

  /** `s.replace(/['"]+/g, '')`: every single and double quote removed,
      wherever it stands. */
  function RemoveQuotes(s: string): (r: string)
    ensures !HasQuote(r)
    ensures |r| <= |s|
    ensures |r| < |s| <==> HasQuote(s)
    ensures !HasQuote(s) ==> r == s
    ensures forall c :: !IsQuote(c) ==> multiset(r)[c] == multiset(s)[c]
  {
    if s == [] then []
    else
      assert s == [s[0]] + s[1..];
      var rest := RemoveQuotes(s[1..]);
      assert HasQuote(s) <==> IsQuote(s[0]) || HasQuote(s[1..]) by {
        if HasQuote(s[1..]) {
          var k :| 0 <= k < |s[1..]| && IsQuote(s[1..][k]);
          assert IsQuote(s[k + 1]);
        }
        if HasQuote(s) && !IsQuote(s[0]) {
          var k :| 0 <= k < |s| && IsQuote(s[k]);
          assert IsQuote(s[1..][k - 1]);
        }
      }
      if IsQuote(s[0]) then rest
      else
        var r := [s[0]] + rest;
        assert !HasQuote(r) by {
          forall k | 0 <= k < |r| ensures !IsQuote(r[k]) {
            if k > 0 { assert r[k] == rest[k - 1]; }
          }
        }
        r
  }

  /** Quote removal works character by character, so it distributes over concatenation. */
  lemma {:induction false} RemoveQuotesAppend(a: string, b: string)
    ensures RemoveQuotes(a + b) == RemoveQuotes(a) + RemoveQuotes(b)
  {
    if a == [] {
      assert a + b == b;
    } else {
      assert (a + b)[1..] == a[1..] + b;
      RemoveQuotesAppend(a[1..], b);
    }
  }

  /** Appending a space adds no quote. */
  lemma NoQuoteAppendSpace(w: string)
    requires !HasQuote(w)
    ensures !HasQuote(w + " ")
  {
    forall k | 0 <= k < |w + " "| ensures !IsQuote((w + " ")[k]) {
      if k < |w| { assert (w + " ")[k] == w[k]; }
    }
  }

  /** A trailing double quote is dropped and the rest is kept when it has no quote. */
  lemma RemoveQuotesDropsQuote(u: string)
    requires !HasQuote(u)
    ensures RemoveQuotes(u + "\"") == u
  {
    RemoveQuotesAppend(u, "\"");
    assert IsQuote("\""[0]);
  }

  /** A string ending in white space is changed by trimming. */
  lemma TrimDropsTrailingSpace(u: string)
    requires u != [] && IsSpace(u[|u| - 1])
    ensures Trim(u) != u
  {
  }

  /** The letter-case mapping `toUpperCase` applies, restricted to the letters of
      ASCII and of Latin-1 (a-z and U+00E0..U+00FE except the division sign),
      which covers every letter of the narration marker, Ç and Ã included. */
  function UpperChar(c: char): (u: char)
    ensures 'a' <= c <= 'z' ==> u as int == c as int - 32
    ensures !('a' <= c <= 'z') && !('\U{E0}' <= c <= '\U{FE}') ==> u == c
  {
    if 'a' <= c <= 'z' then (c as int - 32) as char
    else if '\U{E0}' <= c <= '\U{FE}' && c != '\U{F7}' then (c as int - 32) as char
    else c
  }

  function ToUpper(s: string): (r: string)
    ensures |r| == |s|
    ensures forall k :: 0 <= k < |s| ==> r[k] == UpperChar(s[k])
  {
    if s == [] then [] else [UpperChar(s[0])] + ToUpper(s[1..])
  }

  predicate StartsWith(s: string, prefix: string) {
    |prefix| <= |s| && s[..|prefix|] == prefix
  }

  predicate EndsWith(s: string, suffix: string) {
    |suffix| <= |s| && s[|s| - |suffix|..] == suffix
  }

  /** `parts.join(sep)`: "" for no parts, the parts separated by `sep` otherwise. */
  function Join(parts: seq<string>, sep: string): string {
    if |parts| == 0 then ""
    else if |parts| == 1 then parts[0]
    else parts[0] + sep + Join(parts[1..], sep)
  }

  /** Joining one more part adds exactly one separator before it. */
  lemma {:induction false} JoinSnoc(parts: seq<string>, x: string, sep: string)
    ensures Join(parts + [x], sep) == if parts == [] then x else Join(parts, sep) + sep + x
  {
    if |parts| == 0 {
      assert parts + [x] == [x];
    } else if |parts| == 1 {
      assert (parts + [x])[1..] == [x];
    } else {
      assert (parts + [x])[1..] == parts[1..] + [x];
      JoinSnoc(parts[1..], x, sep);
    }
  }

  /** With a non-empty separator the join is "" exactly when there is at most one
      part and that part is "". */
  lemma {:induction false} JoinEmptyIff(parts: seq<string>, sep: string)
    requires sep != ""
    ensures Join(parts, sep) == "" <==> |parts| == 0 || (|parts| == 1 && parts[0] == "")
  {
  }
}
