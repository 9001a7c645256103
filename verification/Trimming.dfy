/** `str::trim` on UTF-8 bytes: it leaves well-formed text, and trimming again changes nothing. */
module Trimming {
  import opened Bytes

  function TrimStart(s: Bytes): (r: Bytes)
    ensures SpaceLen(r) == 0
    decreases |s|
  {
    if SpaceLen(s) > 0 then TrimStart(s[SpaceLen(s)..]) else s
  }

  /** Length of the White_Space character that ends `s`, or 0. */
  function EndSpace(s: Bytes): (n: nat)
    ensures n <= |s|
    ensures n > 0 ==> SpaceLen(s[|s| - n..]) == n
  {
    if |s| >= 1 && SpaceLen(s[|s| - 1..]) == 1 then 1
    else if |s| >= 2 && SpaceLen(s[|s| - 2..]) == 2 then 2
    else if |s| >= 3 && SpaceLen(s[|s| - 3..]) == 3 then 3
    else 0
  }

  function TrimEnd(s: Bytes): (r: Bytes)
    ensures EndSpace(r) == 0 && r <= s
    decreases |s|
  {
    if EndSpace(s) > 0 then TrimEnd(s[..|s| - EndSpace(s)]) else s
  }

  lemma SpacePrefix(p: Bytes, s: Bytes)
    requires p <= s && SpaceLen(s) == 0
    ensures SpaceLen(p) == 0
  {
    if SpaceLen(p) > 0 {
      assert forall i :: 0 <= i < |p| ==> p[i] == s[i];
    }
  }

  /******* Trimming keeps text well formed *******/

  lemma {:induction false} ScansShifted(s: Bytes, n: nat, i: nat)
    requires n <= i <= |s| && ScansFrom(s, i)
    ensures ScansFrom(s[n..], i - n)
    decreases |s| - i
  {
    assert s[n..][i - n..] == s[i..];
    if i < |s| {
      ScansShifted(s, n, i + ScalarLen(s[i..]));
    }
  }

  lemma SpaceIsScalar(s: Bytes)
    requires SpaceLen(s) > 0
    ensures ScalarLen(s) == SpaceLen(s)
  {
  }

  lemma {:induction false} TrimStartKeepsText(s: Bytes)
    requires Utf8(s)
    ensures Utf8(TrimStart(s))
    decreases |s|
  {
    if SpaceLen(s) > 0 {
      SpaceIsScalar(s);
      assert ScansFrom(s, 0) && s[0..] == s;
      ScansShifted(s, SpaceLen(s), SpaceLen(s));
      TrimStartKeepsText(s[SpaceLen(s)..]);
    }
  }

  /** No byte of a scalar encoding but the first is one that can start a character. */
  lemma InnerBytes(s: Bytes, k: nat)
    requires 0 < k < ScalarLen(s)
    ensures Continuation(s[k])
  {
  }

  lemma ScalarLenOfPrefix(s: Bytes, n: nat)
    requires 0 < ScalarLen(s) <= n <= |s|
    ensures ScalarLen(s[..n]) == ScalarLen(s)
  {
  }

  lemma {:induction false} ScansCut(s: Bytes, end: nat, i: nat)
    requires i <= end < |s| && !Continuation(s[end]) && ScansFrom(s, i)
    ensures ScansFrom(s[..end], i)
    decreases end - i
  {
    if i < end {
      var n := ScalarLen(s[i..]);
      if i + n > end {
        InnerBytes(s[i..], end - i);
      }
      ScalarLenOfPrefix(s[i..], end - i);
      assert s[..end][i..] == s[i..][..end - i];
      ScansCut(s, end, i + n);
    }
  }

  lemma {:induction false} TrimEndKeepsText(s: Bytes)
    requires Utf8(s)
    ensures Utf8(TrimEnd(s))
    decreases |s|
  {
    var n := EndSpace(s);
    if n > 0 {
      assert ScansFrom(s, 0);
      assert s[|s| - n] == s[|s| - n..][0];
      ScansCut(s, |s| - n, 0);
      TrimEndKeepsText(s[..|s| - n]);
    }
  }

  function Trim(s: Str): Str {
    TrimStartKeepsText(s);
    TrimEndKeepsText(TrimStart(s));
    TrimEnd(TrimStart(s))
  }

  lemma TrimTwice(s: Str)
    ensures Trim(Trim(s)) == Trim(s)
  {
    SpacePrefix(Trim(s), TrimStart(s));
  }

  lemma {:induction false} TrimEndKeepsSome(s: Bytes)
    requires s != [] && SpaceLen(s) == 0
    ensures TrimEnd(s) != []
    decreases |s|
  {
    var n := EndSpace(s);
    assert s[0..] == s;
    if 0 < n < |s| {
      SpacePrefix(s[..|s| - n], s);
      TrimEndKeepsSome(s[..|s| - n]);
    }
  }

  lemma {:induction false} BlankStart(s: Bytes)
    ensures Blank(s) <==> TrimStart(s) == []
    decreases |s|
  {
    if SpaceLen(s) > 0 {
      BlankStart(s[SpaceLen(s)..]);
    }
  }

  /** Blank text is text of which trimming leaves nothing. */
  lemma BlankIsTrimmedAway(s: Str)
    ensures Blank(s) <==> Trim(s) == []
  {
    BlankStart(s);
    if TrimStart(s) != [] {
      TrimEndKeepsSome(TrimStart(s));
    }
  }

  /******* Plain ASCII *******/

  lemma AsciiIsScalar(s: Bytes)
    requires |s| > 0 && s[0] < 0x80
    ensures ScalarLen(s) == 1
  {
  }

  predicate Ascii(s: Bytes) {
    forall i :: 0 <= i < |s| ==> s[i] < 0x80
  }

  lemma {:induction false} AsciiScans(s: Bytes, i: nat)
    requires i <= |s| && Ascii(s)
    ensures ScansFrom(s, i)
    decreases |s| - i
  {
    if i < |s| {
      AsciiIsScalar(s[i..]);
      AsciiScans(s, i + 1);
    }
  }

  lemma AsciiText(s: Bytes)
    requires Ascii(s)
    ensures Utf8(s)
  {
    AsciiScans(s, 0);
  }
}
