/** The three JavaScript string builtins the quiz relies on: `String.prototype.trim`
    (for the name and ID typed on the start screen), and `split(" ")` / `join(" ")`
    (for the labels on the warning screen). Strings are sequences of characters. */
module JsText {

  /** The characters `trim` removes: the ECMAScript WhiteSpace and LineTerminator
      code points (tab, line tabulation, form feed, space, no-break space, byte order
      mark, the Unicode space separators, and LF, CR, LS, PS). */
  predicate IsWhite(c: char) {
    c == '\t' || c == '\n' || c == '\U{000B}' || c == '\U{000C}' || c == '\r' ||
    c == ' ' || c == '\U{00A0}' || c == '\U{1680}' ||
    ('\U{2000}' <= c <= '\U{200A}') ||
    c == '\U{2028}' || c == '\U{2029}' || c == '\U{202F}' || c == '\U{205F}' ||
    c == '\U{3000}' || c == '\U{FEFF}'
  }

  /** Drops the leading white space: what is left is a suffix of `s`, everything
      removed is white, and what is left does not start with white space. */
  function TrimStart(s: string): (r: string)
    ensures |r| <= |s| && r == s[|s| - |r|..]
    ensures forall i :: 0 <= i < |s| - |r| ==> IsWhite(s[i])
    ensures r != [] ==> !IsWhite(r[0])
  {
    if s != [] && IsWhite(s[0]) then TrimStart(s[1..]) else s
  }

  /** Drops the trailing white space: what is left is a prefix of `s`, everything
      removed is white, and what is left does not end with white space. */
  function TrimEnd(s: string): (r: string)
    ensures |r| <= |s| && r == s[..|r|]
    ensures forall i :: |r| <= i < |s| ==> IsWhite(s[i])
    ensures r != [] ==> !IsWhite(r[|r| - 1])
  {
    if s != [] && IsWhite(s[|s| - 1]) then TrimEnd(s[..|s| - 1]) else s
  }

  /** `s.trim()`: the part of `s` that starts where its leading white space ends,
      with only white space after it, and that neither starts nor ends with white
      space. It is empty exactly when `s` holds nothing but white space, which is
      the case the start screen refuses. */
  function Trim(s: string): (r: string)
    ensures var k := |s| - |TrimStart(s)|;
      k + |r| <= |s| && r == s[k..k + |r|] &&
      (forall i :: 0 <= i < k ==> IsWhite(s[i])) &&
      (forall i :: k + |r| <= i < |s| ==> IsWhite(s[i]))
    ensures r == [] <==> forall i :: 0 <= i < |s| ==> IsWhite(s[i])
    ensures r != [] ==> !IsWhite(r[0]) && !IsWhite(r[|r| - 1])
  {
    var t := TrimStart(s);
    var r := TrimEnd(t);
    var k := |s| - |t|;
    assert t == s[k..];
    assert r == s[k..k + |r|];
    assert forall i :: k + |r| <= i < |s| ==> s[i] == t[i - k];
    r
  }

  /** `s.split(" ")`: the pieces between single spaces, empty pieces included, so
      there is always at least one piece and none of them holds a space. */
  function Split(s: string): (parts: seq<string>)
    ensures |parts| >= 1
    ensures forall i :: 0 <= i < |parts| ==> ' ' !in parts[i]
  {
    if s == [] then [[]]
    else
      var rest := Split(s[1..]);
      if s[0] == ' ' then [[]] + rest
      else [[s[0]] + rest[0]] + rest[1..]
  }

  /** `parts.join(" ")`; the join of no parts is the empty string. */
  function Join(parts: seq<string>): string {
    if parts == [] then []
    else if |parts| == 1 then parts[0]
    else parts[0] + " " + Join(parts[1..])
  }

  /** The number of spaces in `s`. */
  function Spaces(s: string): nat {
    if s == [] then 0 else (if s[0] == ' ' then 1 else 0) + Spaces(s[1..])
  }

  /** Joining the pieces of a split gives back the string. */
  lemma {:induction false} JoinSplit(s: string)
    ensures Join(Split(s)) == s
  {
    if s != [] {
      var rest := Split(s[1..]);
      JoinSplit(s[1..]);
      if s[0] == ' ' {
        assert Split(s) == [[]] + rest;
        assert ([[]] + rest)[1..] == rest;
      } else {
        var parts := [[s[0]] + rest[0]] + rest[1..];
        assert Split(s) == parts;
        if |rest| == 1 {
          assert Join(parts) == [s[0]] + rest[0];
        } else {
          assert parts[1..] == rest[1..];
          assert Join(rest) == rest[0] + " " + Join(rest[1..]);
        }
      }
    }
  }

  /** `s.split(" ").slice(0, n).join(" ")` — the first `n` words of `s`. */
  function FirstWords(s: string, n: nat): string {
    var parts := Split(s);
    Join(parts[..if n < |parts| then n else |parts|])
  }

  /** How `FirstWords` unfolds on the first character of `s`. */
  lemma FirstWordsStep(s: string, n: nat)
    requires s != [] && n >= 1
    ensures FirstWords(s, n) ==
      if s[0] == ' ' then (if n == 1 then [] else " " + FirstWords(s[1..], n - 1))
      else [s[0]] + FirstWords(s[1..], n)
  {
    var rest := Split(s[1..]);
    var m := if n < |rest| then n else |rest|;
    if s[0] == ' ' {
      var parts := [[]] + rest;
      assert Split(s) == parts;
      if n > 1 {
        var k := if n - 1 < |rest| then n - 1 else |rest|;
        var taken := parts[..k + 1];
        assert taken == [[]] + rest[..k];
        assert taken[1..] == rest[..k];
        assert Join(taken) == [] + " " + Join(rest[..k]);
      } else {
        assert parts[..1] == [[]];
      }
    } else {
      var parts := [[s[0]] + rest[0]] + rest[1..];
      assert Split(s) == parts;
      var taken := parts[..m];
      var restTaken := rest[..m];
      assert taken == [[s[0]] + rest[0]] + rest[1..m];
      if m == 1 {
        assert Join(taken) == [s[0]] + rest[0];
        assert Join(restTaken) == rest[0];
      } else {
        assert taken[1..] == restTaken[1..];
        assert Join(taken) == [s[0]] + rest[0] + " " + Join(taken[1..]);
        assert Join(restTaken) == rest[0] + " " + Join(restTaken[1..]);
      }
    }
  }

  /** The first `n` words of `s` (n at least one) are the longest prefix of `s` holding
      at most n - 1 spaces: a prefix of `s` with min(spaces, n - 1) spaces, which is
      either all of `s` or is followed in `s` by a space. */
  lemma {:induction false} FirstWordsIsPrefix(s: string, n: nat)
    requires n >= 1
    ensures var r := FirstWords(s, n);
      |r| <= |s| && r == s[..|r|] &&
      Spaces(r) == (if Spaces(s) < n - 1 then Spaces(s) else n - 1) &&
      (|r| == |s| || s[|r|] == ' ')
  {
    var r := FirstWords(s, n);
    if s == [] {
      assert Split(s) == [[]];
      assert r == [];
    } else {
      FirstWordsStep(s, n);
      if s[0] == ' ' {
        if n > 1 {
          var r' := FirstWords(s[1..], n - 1);
          FirstWordsIsPrefix(s[1..], n - 1);
          assert r == [' '] + r';
          assert r[1..] == r';
        }
      } else {
        var r' := FirstWords(s[1..], n);
        FirstWordsIsPrefix(s[1..], n);
        assert r == [s[0]] + r';
        assert r[1..] == r';
      }
    }
  }
}
