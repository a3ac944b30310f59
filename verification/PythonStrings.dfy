/** Python's `str.strip`, and `str.split` and `str.join` on the category separator. */
module PythonStrings {
  const SEPARATOR := '/'

  // ---------------------------------------------------------------- str.strip

  /** Python's `str.isspace` on one code point. */
  predicate IsSpace(c: char) {
    var n := c as int;
    9 <= n <= 13 || 28 <= n <= 32 || n == 0x85 || n == 0xA0 || n == 0x1680 ||
    0x2000 <= n <= 0x200A || n == 0x2028 || n == 0x2029 || n == 0x202F ||
    n == 0x205F || n == 0x3000
  }

  /** No printable ASCII character is blank, the separator in particular; the usual blanks are. */
  lemma BlanksAre()
    ensures forall c: char :: 33 <= c as int <= 126 ==> !IsSpace(c)
    ensures forall c <- " \t\n\r" :: IsSpace(c)
  {
  }

  function LStrip(s: string): string {
    if s != "" && IsSpace(s[0]) then LStrip(s[1..]) else s
  }

  function RStrip(s: string): string {
    if s != "" && IsSpace(s[|s| - 1]) then RStrip(s[..|s| - 1]) else s
  }

  function Strip(s: string): string {
    RStrip(LStrip(s))
  }

  predicate Stripped(s: string) {
    s != "" ==> !IsSpace(s[0]) && !IsSpace(s[|s| - 1])
  }

  predicate Blank(s: string) {
    forall c <- s :: IsSpace(c)
  }

  lemma {:induction false} LStripShape(s: string) returns (k: nat)
    ensures k <= |s| && LStrip(s) == s[k..] && Blank(s[..k])
    ensures LStrip(s) != "" ==> !IsSpace(LStrip(s)[0])
  {
    k := 0;
    if s != "" && IsSpace(s[0]) {
      var j := LStripShape(s[1..]);
      k := j + 1;
      assert s[..k] == [s[0]] + s[1..][..j];
      assert s[k..] == s[1..][j..];
    }
  }

  lemma {:induction false} RStripShape(s: string) returns (k: nat)
    ensures k <= |s| && RStrip(s) == s[..k] && Blank(s[k..])
    ensures RStrip(s) != "" ==> !IsSpace(RStrip(s)[|RStrip(s)| - 1])
  {
    k := |s|;
    var n := |s| - 1;
    if s != "" && IsSpace(s[n]) {
      k := RStripShape(s[..n]);
      assert s[..k] == s[..n][..k];
      BlankExtends(s, k, n);
    }
  }

  lemma BlankExtends(s: string, k: nat, n: nat)
    requires k <= n < |s| && Blank(s[..n][k..]) && IsSpace(s[n]) && n + 1 == |s|
    ensures Blank(s[k..])
  {
    assert s[k..] == s[..n][k..] + [s[n]];
  }

  /** `strip` cuts a blank prefix and a blank suffix and leaves no blank at either end. */
  lemma StripShape(s: string) returns (a: nat, b: nat)
    ensures Stripped(Strip(s))
    ensures a <= b <= |s| && Strip(s) == s[a..b] && Blank(s[..a]) && Blank(s[b..])
  {
    a := LStripShape(s);
    var l := LStrip(s);
    var k := RStripShape(l);
    b := a + k;
    assert s[a..b] == l[..k];
    assert s[b..] == l[k..];
  }

  lemma StrippedIsFixed(s: string)
    requires Stripped(s)
    ensures Strip(s) == s
  {
  }

  lemma BlankStripsAway(s: string)
    ensures Strip(s) == "" <==> Blank(s)
  {
    var a, b := StripShape(s);
    if Strip(s) == "" {
      assert s == s[..a] + s[b..];
    } else {
      assert s[a] == Strip(s)[0] && s[a] in s;
    }
  }

  /** A blank at either end makes no difference. */
  lemma {:induction false} StripIgnoresLast(s: string, c: char)
    requires IsSpace(c)
    ensures Strip(s + [c]) == Strip(s)
  {
    if s == "" {
      assert s + [c] == [c] && [c][1..] == "";
    } else if IsSpace(s[0]) {
      assert (s + [c])[0] == s[0] && (s + [c])[1..] == s[1..] + [c];
      StripIgnoresLast(s[1..], c);
    } else {
      assert (s + [c])[0] == s[0];
      assert (s + [c])[..|s|] == s;
    }
  }

  lemma StripIgnoresFirst(s: string, c: char)
    requires IsSpace(c)
    ensures Strip([c] + s) == Strip(s)
  {
    assert ([c] + s)[1..] == s;
  }

  // ------------------------------------------------------------ str.split/join

  function SplitOn(s: string): (parts: seq<string>)
    ensures |parts| > 0
  {
    if s == "" then [""]
    else
      var rest := SplitOn(s[1..]);
      if s[0] == SEPARATOR then [""] + rest
      else [[s[0]] + rest[0]] + rest[1..]
  }

  function Join(parts: seq<string>): string {
    if |parts| == 0 then ""
    else if |parts| == 1 then parts[0]
    else parts[0] + [SEPARATOR] + Join(parts[1..])
  }

  predicate Flat(part: string) {
    SEPARATOR !in part
  }

  /** A further character extends the first or the last part. */
  lemma SplitCons(s: string, c: char)
    requires c != SEPARATOR
    ensures SplitOn([c] + s) == [[c] + SplitOn(s)[0]] + SplitOn(s)[1..]
  {
    assert ([c] + s)[1..] == s;
  }

  lemma {:induction false} SplitIsFlat(s: string)
    ensures forall p <- SplitOn(s) :: Flat(p)
  {
    if s != "" {
      SplitIsFlat(s[1..]);
      var rest := SplitOn(s[1..]);
      assert Flat(rest[0]);
      if s[0] != SEPARATOR {
        assert Flat([s[0]] + rest[0]);
      }
    }
  }

  lemma {:induction false} JoinUndoesSplit(s: string)
    ensures Join(SplitOn(s)) == s
  {
    if s != "" {
      JoinUndoesSplit(s[1..]);
      var rest := SplitOn(s[1..]);
      if s[0] == SEPARATOR {
        assert ([""] + rest)[1..] == rest;
      } else {
        var parts := [[s[0]] + rest[0]] + rest[1..];
        assert parts[1..] == rest[1..];
        if |rest| > 1 {
          assert Join(parts) == [s[0]] + (rest[0] + [SEPARATOR] + Join(rest[1..]));
        }
      }
    }
  }

  lemma {:induction false} SplitFlat(part: string)
    requires Flat(part)
    ensures SplitOn(part) == [part]
  {
    if part != "" {
      SplitFlat(part[1..]);
      assert [part[0]] + part[1..] == part;
    }
  }

  lemma {:induction false} SplitAtSeparator(part: string, tail: string)
    requires Flat(part)
    ensures SplitOn(part + [SEPARATOR] + tail) == [part] + SplitOn(tail)
  {
    var s := part + [SEPARATOR] + tail;
    if part == "" {
      assert s[1..] == tail;
    } else {
      SplitAtSeparator(part[1..], tail);
      assert s[1..] == part[1..] + [SEPARATOR] + tail;
      assert [part[0]] + part[1..] == part;
    }
  }

  lemma {:induction false} SplitUndoesJoin(parts: seq<string>)
    requires |parts| > 0 && forall p <- parts :: Flat(p)
    ensures SplitOn(Join(parts)) == parts
  {
    if |parts| == 1 {
      SplitFlat(parts[0]);
    } else {
      SplitUndoesJoin(parts[1..]);
      SplitAtSeparator(parts[0], Join(parts[1..]));
    }
  }

  lemma {:induction false} JoinSnoc(parts: seq<string>, c: char)
    requires parts != []
    ensures var n := |parts| - 1; Join(parts[..n] + [parts[n] + [c]]) == Join(parts) + [c]
  {
    var n := |parts| - 1;
    var longer := parts[..n] + [parts[n] + [c]];
    if n > 0 {
      JoinSnoc(parts[1..], c);
      assert longer[1..] == parts[1..][..n - 1] + [parts[1..][n - 1] + [c]];
    }
  }

  lemma SplitSnoc(s: string, c: char)
    requires c != SEPARATOR
    ensures var parts, n := SplitOn(s), |SplitOn(s)| - 1;
            SplitOn(s + [c]) == parts[..n] + [parts[n] + [c]]
  {
    hide SplitOn, Join;
    var parts, n := SplitOn(s), |SplitOn(s)| - 1;
    SplitIsFlat(s);
    JoinUndoesSplit(s);
    JoinSnoc(parts, c);
    assert Flat(parts[n]) && Flat(parts[n] + [c]);
    SplitUndoesJoin(parts[..n] + [parts[n] + [c]]);
  }
}
