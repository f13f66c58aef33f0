/**
 Percent-encoding, as in sections 2.1 and 2.3 of RFC 3986: the bytes that are not unreserved
 become triplets. Bytes of valid UTF-8 sequences may also be kept as they are.
 */
module Percent {
  import opened Basics

  /** The bytes of a C string. */
  type Byte = b: int | 1 <= b < 256 witness 1
  type Text = seq<Byte>

  const SLASH: Byte := 0x2F
  const QUERY: Byte := 0x3F
  const FRAGMENT: Byte := 0x23
  const AMPERSAND: Byte := 0x26
  const PERCENT: Byte := 0x25
  const PLUS: Byte := 0x2B
  const SPACE: Byte := 0x20

  predicate Unreserved(b: Byte) {
    || 0x30 <= b <= 0x39 || 0x41 <= b <= 0x5A || 0x61 <= b <= 0x7A
    || b == 0x2D || b == 0x2E || b == 0x5F || b == 0x7E
  }

  function HexDigit(n: nat): Byte
    requires n < 16
  {
    if n < 10 then 0x30 + n else 0x41 + n - 10
  }

  function High(b: Byte): (n: nat)
    ensures n < 16
  {
    (b as int) / 16
  }

  function Low(b: Byte): (n: nat)
    ensures n < 16
  {
    (b as int) % 16
  }

  /** The value of a hexadecimal digit, or 16. */
  function HexValue(b: Byte): (n: nat)
    ensures n <= 16
  {
    if 0x30 <= b <= 0x39 then b - 0x30 else if 0x41 <= b <= 0x46 then b - 0x41 + 10
    else if 0x61 <= b <= 0x66 then b - 0x61 + 10 else 16
  }

  lemma HexDigitValue(n: nat)
    requires n < 16
    ensures HexValue(HexDigit(n)) == n
  {
  }

  /** Which bytes of a text belong to UTF-8 sequences that are kept. */
  type Keep = (Text, nat) -> bool

  predicate Kept(s: Text, keep: Keep, i: nat)
    requires i < |s|
  {
    Unreserved(s[i]) || (s[i] >= 0x80 && keep(s, i))
  }

  function EscapeFrom(s: Text, keep: Keep, i: nat): (r: Text)
    requires i <= |s|
    decreases |s| - i
  {
    if i == |s| then []
    else if Kept(s, keep, i) then [s[i]] + EscapeFrom(s, keep, i + 1)
    else [PERCENT, HexDigit(High(s[i])), HexDigit(Low(s[i]))] + EscapeFrom(s, keep, i + 1)
  }

  /** g_string_append_uri_escaped, with no reserved byte allowed */
  function Escape(s: Text, keep: Keep): Text { EscapeFrom(s, keep, 0) }

  /** g_uri_unescape_string, with no illegal byte */
  function Unescape(t: Text): Option<Text> {
    if t == [] then Some([])
    else if t[0] != PERCENT then
      var rest := Unescape(t[1..]);
      if rest.None? then None else Some([t[0]] + rest.value)
    else if |t| < 3 || HexValue(t[1]) == 16 || HexValue(t[2]) == 16 then None
    else
      var b := 16 * HexValue(t[1]) + HexValue(t[2]);
      var rest := Unescape(t[3..]);
      if b == 0 || rest.None? then None else Some([b] + rest.value)
  }

  lemma {:induction false} UnescapesFrom(s: Text, keep: Keep, i: nat)
    requires i <= |s|
    ensures Unescape(EscapeFrom(s, keep, i)) == Some(s[i..])
    decreases |s| - i
  {
    if i == |s| {
      assert s[i..] == [];
    } else {
      UnescapesFrom(s, keep, i + 1);
      var t, rest := EscapeFrom(s, keep, i), EscapeFrom(s, keep, i + 1);
      assert s[i..] == [s[i]] + s[i + 1..];
      if Kept(s, keep, i) {
        assert t[1..] == rest;
      } else {
        assert t[3..] == rest;
        HexDigitValue(High(s[i]));
        HexDigitValue(Low(s[i]));
      }
    }
  }

  /** What is escaped is recovered. */
  lemma EscapeRoundTrip(s: Text, keep: Keep)
    ensures Unescape(Escape(s, keep)) == Some(s)
  {
    UnescapesFrom(s, keep, 0);
  }

  /** Free of the bytes that structure a URL. */
  predicate Plain(t: Text) {
    forall i :: 0 <= i < |t| ==> t[i] != SLASH && t[i] != QUERY && t[i] != FRAGMENT && t[i] != AMPERSAND
  }

  lemma {:induction false} EscapeFromIsPlain(s: Text, keep: Keep, i: nat)
    requires i <= |s|
    ensures Plain(EscapeFrom(s, keep, i)) && |EscapeFrom(s, keep, i)| >= |s| - i
    decreases |s| - i
  {
    if i < |s| { EscapeFromIsPlain(s, keep, i + 1); }
  }

  lemma EscapeIsPlain(s: Text, keep: Keep)
    ensures Plain(Escape(s, keep)) && |Escape(s, keep)| >= |s|
    ensures Escape(s, keep) == [] <==> s == []
  {
    EscapeFromIsPlain(s, keep, 0);
  }

  lemma {:induction false} EscapeFromKeeps(s: Text, keep: Keep, i: nat)
    requires i <= |s|
    ensures EscapeFrom(s, keep, i) == s[i..] <==> forall j :: i <= j < |s| ==> Kept(s, keep, j)
    decreases |s| - i
  {
    hide Kept;
    if i < |s| {
      EscapeFromKeeps(s, keep, i + 1);
      EscapeFromIsPlain(s, keep, i + 1);
      assert s[i..] == [s[i]] + s[i + 1..];
      if Kept(s, keep, i) {
        assert EscapeFrom(s, keep, i)[1..] == EscapeFrom(s, keep, i + 1);
      }
    }
  }

  /** A text is left as it is exactly when all its bytes are unreserved, or kept. */
  lemma EscapeKeeps(s: Text, keep: Keep)
    ensures Escape(s, keep) == s <==> forall j :: 0 <= j < |s| ==> Unreserved(s[j]) || (s[j] >= 0x80 && keep(s, j))
  {
    EscapeFromKeeps(s, keep, 0);
    assert forall j :: 0 <= j < |s| ==> (Kept(s, keep, j) <==> (Unreserved(s[j]) || (s[j] >= 0x80 && keep(s, j))));
  }

  lemma {:induction false} EscapeFromHasNoPlus(s: Text, keep: Keep, i: nat)
    requires i <= |s|
    ensures PLUS !in EscapeFrom(s, keep, i)
    decreases |s| - i
  {
    if i < |s| { EscapeFromHasNoPlus(s, keep, i + 1); }
  }

  /** What needs no unescaping may come first. */
  lemma {:induction false} UnescapeAfter(a: Text, t: Text)
    requires PERCENT !in a && Unescape(t).Some?
    ensures Unescape(a + t) == Some(a + Unescape(t).value)
  {
    if a == [] {
      assert a + t == t && a + Unescape(t).value == Unescape(t).value;
    } else {
      UnescapeAfter(a[1..], t);
      assert (a + t)[1..] == a[1..] + t;
      assert [a[0]] + (a[1..] + Unescape(t).value) == a + Unescape(t).value;
    }
  }

  /** A triplet that stands for a byte other than zero. */
  predicate Triplet(t: Text, i: nat)
    requires i < |t|
  {
    i + 2 < |t| && IsDigit(t[i + 1]) && IsDigit(t[i + 2]) && !(t[i + 1] == t[i + 2] == 0x30)
  }

  predicate IsDigit(b: Byte) { 0x30 <= b <= 0x39 || 0x41 <= b <= 0x46 || 0x61 <= b <= 0x66 }

  lemma DigitIs(b: Byte)
    ensures HexValue(b) < 16 <==> IsDigit(b)
    ensures HexValue(b) == 0 <==> b == 0x30
  {
  }

  /** A text can be unescaped exactly when each percent sign starts a triplet. */
  lemma {:induction false} UnescapeIff(t: Text)
    ensures Unescape(t).Some? <==> forall i :: 0 <= i < |t| && t[i] == PERCENT ==> Triplet(t, i)
  {
    if t != [] && t[0] != PERCENT {
      UnescapeIff(t[1..]);
      forall i | 0 < i < |t| ensures t[1..][i - 1] == t[i] && (Triplet(t[1..], i - 1) <==> Triplet(t, i)) { }
    } else if t != [] && |t| >= 3 {
      DigitIs(t[1]);
      DigitIs(t[2]);
      UnescapeIff(t[3..]);
      forall i | 3 <= i < |t| ensures t[3..][i - 3] == t[i] && (Triplet(t[3..], i - 3) <==> Triplet(t, i)) { }
    }
  }
}
