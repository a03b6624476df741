/** The three JavaScript string operations the renderer relies on:
    String.prototype.trim, String.prototype.split with a one-character
    separator, and its inverse Array.prototype.join. */
module JsString {

  /** The characters String.prototype.trim removes: the ECMAScript
      WhiteSpace and LineTerminator code points. */
  predicate IsWhitespace(c: char) {
    || c == '\t' || c == '\n' || c == '\U{000B}' || c == '\U{000C}' || c == '\r'
    || c == ' ' || c == '\U{00A0}' || c == '\U{1680}'
    || ('\U{2000}' <= c <= '\U{200A}')
    || c == '\U{2028}' || c == '\U{2029}' || c == '\U{202F}' || c == '\U{205F}'
    || c == '\U{3000}' || c == '\U{FEFF}'
  }

  predicate AllWhitespace(s: string) {
    forall i :: 0 <= i < |s| ==> IsWhitespace(s[i])
  }

  /** Drops the leading whitespace. */
  function TrimStart(s: string): string {
    if |s| > 0 && IsWhitespace(s[0]) then TrimStart(s[1..]) else s
  }

  /** Drops the trailing whitespace. */
  function TrimEnd(s: string): string {
    if |s| > 0 && IsWhitespace(s[|s| - 1]) then TrimEnd(s[..|s| - 1]) else s
  }

  /** String.prototype.trim. */
  function Trim(s: string): string {
    TrimEnd(TrimStart(s))
  }

  /** TrimStart keeps the suffix of `s` that starts at its first
      non-whitespace character. */
  lemma {:induction false} TrimStartSpec(s: string)
    ensures |TrimStart(s)| <= |s| && TrimStart(s) == s[|s| - |TrimStart(s)|..]
    ensures AllWhitespace(s[..|s| - |TrimStart(s)|])
    ensures TrimStart(s) == "" || !IsWhitespace(TrimStart(s)[0])
    decreases |s|
  {
    if |s| > 0 && IsWhitespace(s[0]) {
      TrimStartSpec(s[1..]);
      var r := TrimStart(s);
      assert s[..|s| - |r|] == [s[0]] + s[1..][..|s| - 1 - |r|];
    }
  }

  /** TrimEnd keeps the prefix of `s` that ends at its last non-whitespace
      character. */
  lemma {:induction false} TrimEndSpec(s: string)
    ensures |TrimEnd(s)| <= |s| && TrimEnd(s) == s[..|TrimEnd(s)|]
    ensures AllWhitespace(s[|TrimEnd(s)|..])
    ensures TrimEnd(s) == "" || !IsWhitespace(TrimEnd(s)[|TrimEnd(s)| - 1])
    decreases |s|
  {
    if |s| > 0 && IsWhitespace(s[|s| - 1]) {
      TrimEndSpec(s[..|s| - 1]);
      var r := TrimEnd(s);
      assert s[|r|..] == s[..|s| - 1][|r|..] + [s[|s| - 1]];
    }
  }

  /** Trim gives the empty string exactly on all-whitespace input, and
      otherwise a string that starts and ends with non-whitespace. */
  lemma TrimSpec(s: string)
    ensures Trim(s) == "" <==> AllWhitespace(s)
    ensures Trim(s) != "" ==> !IsWhitespace(Trim(s)[0]) && !IsWhitespace(Trim(s)[|Trim(s)| - 1])
  {
    var t := TrimStart(s);
    var r := TrimEnd(t);
    TrimStartSpec(s);
    TrimEndSpec(t);
    assert r == "" ==> AllWhitespace(t) by {
      if r == "" { assert t[|r|..] == t; }
    }
    assert AllWhitespace(t) ==> t == "";
    assert t == "" ==> AllWhitespace(s) by {
      if t == "" { assert s[..|s|] == s; }
    }
    if r != "" {
      assert r[0] == t[0];
    }
  }

  lemma {:induction false} TrimStartAppend(s: string, t: string)
    requires !AllWhitespace(s)
    ensures TrimStart(s + t) == TrimStart(s) + t
  {
    assert |s| > 0;
    if IsWhitespace(s[0]) {
      assert (s + t)[1..] == s[1..] + t;
      assert !AllWhitespace(s[1..]) by {
        var i :| 0 <= i < |s| && !IsWhitespace(s[i]);
        assert i > 0 && s[1..][i - 1] == s[i];
      }
      TrimStartAppend(s[1..], t);
    }
  }

  /** The space the wrap accumulator always carries at its end never
      survives trimming. */
  lemma TrimTrailingSpace(s: string)
    ensures Trim(s + " ") == Trim(s)
  {
    TrimSpec(s);
    TrimSpec(s + " ");
    if AllWhitespace(s) {
      assert AllWhitespace(s + " ");
    } else {
      TrimStartAppend(s, " ");
      var u := TrimStart(s);
      TrimStartSpec(s);
      assert u != "" && !IsWhitespace(u[0]);
      assert TrimEnd(u + " ") == TrimEnd(u);
    }
  }

  /** Array.prototype.join with a one-character separator. */
  function Join(parts: seq<string>, sep: char): string {
    if |parts| == 0 then ""
    else if |parts| == 1 then parts[0]
    else parts[0] + [sep] + Join(parts[1..], sep)
  }

  /** String.prototype.split with a one-character separator: the pieces
      between consecutive separators; there is always at least one. */
  function Split(s: string, sep: char): (parts: seq<string>)
    ensures |parts| >= 1
  {
    if |s| == 0 then [""]
    else
      var rest := Split(s[1..], sep);
      if s[0] == sep then [""] + rest
      else [[s[0]] + rest[0]] + rest[1..]
  }

  /** No piece contains the separator. */
  lemma {:induction false} SplitPieces(s: string, sep: char)
    ensures forall i :: 0 <= i < |Split(s, sep)| ==> sep !in Split(s, sep)[i]
    decreases |s|
  {
    if |s| > 0 {
      SplitPieces(s[1..], sep);
      var rest := Split(s[1..], sep);
      if s[0] != sep {
        var parts := [[s[0]] + rest[0]] + rest[1..];
        forall i | 0 <= i < |parts| ensures sep !in parts[i] {
          if i > 0 {
            assert parts[i] == rest[i];
          }
        }
      }
    }
  }

  /** Rejoining the pieces with the separator gives back the input. */
  lemma {:induction false} JoinSplit(s: string, sep: char)
    ensures Join(Split(s, sep), sep) == s
    decreases |s|
  {
    if |s| > 0 {
      JoinSplit(s[1..], sep);
      var rest := Split(s[1..], sep);
      assert [s[0]] + s[1..] == s;
      if s[0] != sep {
        var parts := [[s[0]] + rest[0]] + rest[1..];
        assert parts[1..] == rest[1..];
        assert Join(parts, sep) == [s[0]] + Join(rest, sep);
      }
    }
  }

  lemma {:induction false} JoinFirst(parts: seq<string>, sep: char)
    requires |parts| >= 1
    ensures Join(parts, sep) == parts[0] + (if |parts| == 1 then "" else [sep] + Join(parts[1..], sep))
  {
    if |parts| == 1 { assert parts[0] + "" == parts[0]; }
  }

  /** A separator-free prefix that ends at the end of `s` or at a separator
      is the first piece of `s`, so two such prefixes are the same. */
  lemma FirstPieceUnique(s: string, a: string, b: string, sep: char)
    requires sep !in a && sep !in b
    requires a <= s && b <= s
    requires |a| == |s| || s[|a|] == sep
    requires |b| == |s| || s[|b|] == sep
    ensures a == b
  {
  }

  /** Joining separator-free pieces is injective. */
  lemma {:induction false} JoinInjective(p: seq<string>, q: seq<string>, sep: char)
    requires |p| >= 1 && |q| >= 1
    requires forall i :: 0 <= i < |p| ==> sep !in p[i]
    requires forall i :: 0 <= i < |q| ==> sep !in q[i]
    requires Join(p, sep) == Join(q, sep)
    ensures p == q
    decreases |p|
  {
    var s := Join(p, sep);
    JoinFirst(p, sep);
    JoinFirst(q, sep);
    var a, b := p[0], q[0];
    FirstPieceUnique(s, a, b, sep);
    if |p| > 1 {
      var tail := s[|a| + 1..];
      assert Join(p[1..], sep) == tail;
      assert Join(q[1..], sep) == tail;
      JoinInjective(p[1..], q[1..], sep);
      assert p == [a] + p[1..];
      assert q == [b] + q[1..];
    }
  }

  /** Split inverts Join on separator-free pieces. */
  lemma SplitJoin(parts: seq<string>, sep: char)
    requires |parts| >= 1
    requires forall i :: 0 <= i < |parts| ==> sep !in parts[i]
    ensures Split(Join(parts, sep), sep) == parts
  {
    JoinSplit(Join(parts, sep), sep);
    SplitPieces(Join(parts, sep), sep);
    JoinInjective(Split(Join(parts, sep), sep), parts, sep);
  }

  /** Joining two non-empty runs of pieces. */
  lemma {:induction false} JoinAppend(a: seq<string>, b: seq<string>, sep: char)
    requires |a| >= 1 && |b| >= 1
    ensures Join(a + b, sep) == Join(a, sep) + [sep] + Join(b, sep)
    decreases |a|
  {
    if |a| == 1 {
      assert (a + b)[1..] == b;
    } else {
      assert (a + b)[1..] == a[1..] + b;
      JoinAppend(a[1..], b, sep);
    }
  }
}
