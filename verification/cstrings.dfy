/** NUL-terminated character data as tiltgap.c handles it: the library
    comparison `strncmp`, the length `strlen`, and the fixed key buffer
    that is filled by the key generator and cleared with `memset`. */
module CStrings {

  const NUL: char := 0 as char

  /** Text that can stand before a terminator: it holds no NUL. */
  predicate NoNul(s: seq<char>) {
    forall i :: 0 <= i < |s| ==> s[i] != NUL
  }

  /** `strncmp(s, t, n) == 0`, reading `s` and `t` as NUL-terminated strings
      whose characters past the end of the sequence are NUL: at most `n`
      characters are compared, and the comparison stops at a terminator
      that both strings share. */
  function StrNCmpEq(s: seq<char>, t: seq<char>, n: nat): (r: bool)
    ensures (forall i :: 0 <= i < n ==> CharAt(s, i) == CharAt(t, i)) ==> r
    ensures NoNul(s) && NoNul(t) && r ==> forall i :: 0 <= i < n ==> CharAt(s, i) == CharAt(t, i)
    decreases n
  {
    if n == 0 then true
    else if CharAt(s, 0) != CharAt(t, 0) then false
    else if CharAt(s, 0) == NUL then true
    else
      CharAtTail(s);
      CharAtTail(t);
      assert NoNul(s) ==> NoNul(s[1..]);
      assert NoNul(t) ==> NoNul(t[1..]);
      StrNCmpEq(s[1..], t[1..], n - 1)
  }

  /** The character at `i` of a C string whose terminator follows `s`. */
  function CharAt(s: seq<char>, i: nat): char {
    if i < |s| then s[i] else NUL
  }

  lemma CharAtTail(s: seq<char>)
    requires |s| > 0
    ensures forall i: nat :: CharAt(s[1..], i) == CharAt(s, i + 1)
    ensures forall i: nat :: 1 <= i ==> CharAt(s, i) == CharAt(s[1..], i - 1)
  {
  }

  /** What a bounded comparison of two C strings decides: when the
      literal `t` is shorter than the bound its terminator is compared
      too, so only `t` itself matches; otherwise only the first `n`
      characters are compared. */
  lemma {:induction false} StrNCmpEqMeaning(s: seq<char>, t: seq<char>, n: nat)
    requires NoNul(s) && NoNul(t)
    ensures StrNCmpEq(s, t, n) <==>
              if |t| < n then s == t else |s| >= n && s[..n] == t[..n]
    decreases n
  {
    if n == 0 || |s| == 0 || |t| == 0 {
    } else if s[0] != t[0] {
      if |t| >= n && |s| >= n { assert s[..n][0] != t[..n][0]; }
    } else {
      StrNCmpEqMeaning(s[1..], t[1..], n - 1);
      assert s == [s[0]] + s[1..] && t == [t[0]] + t[1..];
      if |t| >= n && |s| >= n {
        assert s[..n] == [s[0]] + s[1..][..n - 1];
        assert t[..n] == [t[0]] + t[1..][..n - 1];
      }
    }
  }

  /** Index of the first NUL: the length `strlen` reports. */
  function FirstNul(s: seq<char>): (r: nat)
    requires NUL in s
    ensures r < |s| && s[r] == NUL
    ensures forall j :: 0 <= j < r ==> s[j] != NUL
  {
    if s[0] == NUL then 0
    else
      assert NUL in s[1..] by { var k :| 0 <= k < |s| && s[k] == NUL; assert s[1..][k - 1] == NUL; }
      1 + FirstNul(s[1..])
  }

  /** The C string held in a buffer: everything before its first NUL. */
  function CStr(s: seq<char>): (r: seq<char>)
    requires NUL in s
    ensures NoNul(r) && |r| < |s| && s[..|r|] == r && s[|r|] == NUL
  {
    s[..FirstNul(s)]
  }

  /** `strlen(a)`: scans for the terminator, which the caller guarantees. */
  method Strlen(a: array<char>) returns (n: nat)
    requires NUL in a[..]
    ensures n < a.Length && a[n] == NUL
    ensures forall j :: 0 <= j < n ==> a[j] != NUL
  {
    ghost var k := FirstNul(a[..]);
    n := 0;
    while a[n] != NUL
      invariant n <= k
      invariant forall j :: 0 <= j < n ==> a[j] != NUL
      decreases k - n
    {
      n := n + 1;
    }
  }

  /** `s` with every position up to and including `k` set to NUL. */
  function Wiped(s: seq<char>, k: int): (r: seq<char>)
    ensures |r| == |s|
    ensures forall p :: 0 <= p < |s| ==> r[p] == if p <= k then NUL else s[p]
  {
    seq(|s|, p requires 0 <= p < |s| => if p <= k then NUL else s[p])
  }

  /** `memset(buf, 0, strlen(buf))`: zeroes the characters before the first
      NUL and leaves that NUL and everything after it, up to the buffer's
      capacity, as it was. Afterwards the buffer holds the empty string. */
  method Wipe(buf: array<char>)
    requires NUL in buf[..]
    modifies buf
    ensures forall i :: 0 <= i < FirstNul(old(buf[..])) ==> buf[i] == NUL
    ensures forall i :: FirstNul(old(buf[..])) <= i < buf.Length ==> buf[i] == old(buf[i])
    ensures NUL in buf[..] && CStr(buf[..]) == []
    ensures buf[..] == Wiped(old(buf[..]), FirstNul(old(buf[..])))
  {
    var n := Strlen(buf);
    assert n == FirstNul(buf[..]);
    var i := 0;
    while i < n
      invariant 0 <= i <= n
      invariant forall j :: 0 <= j < i ==> buf[j] == NUL
      invariant forall j :: i <= j < buf.Length ==> buf[j] == old(buf[j])
    {
      buf[i] := NUL;
      i := i + 1;
    }
    assert buf[..][0] == NUL;
  }

  /** The buffer as the key generator leaves it: the text `w`, then its
      terminator, then whatever the buffer held before. */
  method PutCString(buf: array<char>, w: seq<char>)
    requires NoNul(w) && |w| < buf.Length
    modifies buf
    ensures buf[..|w|] == w && buf[|w|] == NUL
    ensures forall i :: |w| < i < buf.Length ==> buf[i] == old(buf[i])
    ensures NUL in buf[..] && CStr(buf[..]) == w
    ensures buf[..] == w + [NUL] + old(buf[..])[|w| + 1..]
  {
    var i := 0;
    while i < |w|
      invariant 0 <= i <= |w|
      invariant forall j :: 0 <= j < i ==> buf[j] == w[j]
      invariant forall j :: i <= j < buf.Length ==> buf[j] == old(buf[j])
    {
      buf[i] := w[i];
      i := i + 1;
    }
    buf[|w|] := NUL;
    assert buf[..][|w|] == NUL;
    assert buf[..|w|] == w;
    assert FirstNul(buf[..]) == |w|;
  }
}
