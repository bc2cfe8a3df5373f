/** PostgreSQL's bytea hex format: escaping, unescaping, and expanding raw bytes in their own buffer. */
module HexText {
  import opened Common
  import Hex

  const BACKSLASH := '\\' as int
  const LETTER_X := 'x' as int

  predicate AllBytes(s: seq<int>) {
    forall i | 0 <= i < |s| :: 0 <= s[i] < 256
  }

  /** Character j of the text: two for each byte, high nibble first. */
  function HexAt(raw: seq<int>, j: int): int
    requires AllBytes(raw) && 0 <= j < 2 * |raw|
  {
    if j % 2 == 0 then Hex.Digit(raw[j / 2] / 16) as int else Hex.Digit(raw[j / 2] % 16) as int
  }

  function Escaped(raw: seq<int>): (text: seq<int>)
    requires AllBytes(raw)
    ensures |text| == 2 * |raw| + 2
  {
    [BACKSLASH, LETTER_X] + seq(2 * |raw|, j requires 0 <= j < 2 * |raw| => HexAt(raw, j))
  }

  function Unhex(text: seq<int>): Option<seq<int>> {
    if text == [] then Some([])
    else if |text| == 1 || Hex.Value(text[0]) < 0 || Hex.Value(text[1]) < 0 then None
    else
      Prepend([Hex.Value(text[0]) * 16 + Hex.Value(text[1])], Unhex(text[2..]))
  }

  /** unesc_bin; None where it throws. */
  function Unescaped(text: seq<int>): Option<seq<int>> {
    if |text| < 2 || |text| % 2 != 0 || text[0] != BACKSLASH || text[1] != LETTER_X then None else Unhex(text[2..])
  }

  // ---- Escaping and unescaping ----

  lemma {:induction false} UnhexHex(raw: seq<int>, text: seq<int>)
    requires AllBytes(raw) && |text| == 2 * |raw| && forall j | 0 <= j < |text| :: text[j] == HexAt(raw, j)
    ensures Unhex(text) == Some(raw)
  {
    if raw != [] {
      forall j | 0 <= j < |text[2..]| ensures text[2..][j] == HexAt(raw[1..], j) {
        assert text[2..][j] == text[j + 2] && (j + 2) / 2 == j / 2 + 1;
      }
      UnhexHex(raw[1..], text[2..]);
      assert text[0] == HexAt(raw, 0) && text[1] == HexAt(raw, 1);
      assert [raw[0]] + raw[1..] == raw;
    }
  }

  /** Unescaping recovers the bytes. */
  lemma Recovers(raw: seq<int>)
    requires AllBytes(raw)
    ensures Unescaped(Escaped(raw)) == Some(raw)
  {
    hide HexAt;
    UnhexHex(raw, Escaped(raw)[2..]);
  }

  predicate AllHex(text: seq<int>) {
    forall i | 0 <= i < |text| :: Hex.Value(text[i]) >= 0
  }

  lemma {:induction false} UnhexIff(text: seq<int>)
    ensures Unhex(text).Some? <==> |text| % 2 == 0 && AllHex(text)
    ensures Unhex(text).Some? ==> AllBytes(Unhex(text).value) && 2 * |Unhex(text).value| == |text|
    decreases |text|
  {
    if |text| > 1 {
      UnhexIff(text[2..]);
      assert AllHex(text) <==> Hex.Value(text[0]) >= 0 && Hex.Value(text[1]) >= 0 && AllHex(text[2..]) by {
        assert forall i | 0 <= i < |text[2..]| :: text[2..][i] == text[i + 2];
        assert forall i | 2 <= i < |text| :: text[i] == text[2..][i - 2];
      }
    }
  }

  lemma {:induction false} UnhexAt(text: seq<int>, k: nat)
    requires Unhex(text).Some? && 2 * k + 1 < |text|
    ensures k < |Unhex(text).value|
    ensures Unhex(text).value[k] == Hex.Value(text[2 * k]) * 16 + Hex.Value(text[2 * k + 1])
    decreases |text|
  {
    if k > 0 {
      UnhexAt(text[2..], k - 1);
      assert text[2..][2 * (k - 1)] == text[2 * k] && text[2..][2 * (k - 1) + 1] == text[2 * k + 1];
    }
  }

  /** Byte k of an accepted text is the value of its k-th pair of digits, in either case. */
  lemma BytesOf(text: seq<int>, k: nat)
    requires Unescaped(text).Some? && 2 * k + 3 < |text|
    ensures 2 * |Unescaped(text).value| + 2 == |text| && k < |Unescaped(text).value|
    ensures Unescaped(text).value[k] == Hex.Value(text[2 * k + 2]) * 16 + Hex.Value(text[2 * k + 3])
  {
    UnhexIff(text[2..]);
    UnhexAt(text[2..], k);
    assert text[2..][2 * k] == text[2 * k + 2] && text[2..][2 * k + 1] == text[2 * k + 3];
  }

  /** Exactly the texts that begin with the escape and then hold pairs of hex digits are accepted. */
  lemma AcceptedIff(text: seq<int>)
    ensures Unescaped(text).Some? <==>
            |text| >= 2 && |text| % 2 == 0 && text[0] == BACKSLASH && text[1] == LETTER_X && AllHex(text[2..])
  {
    if |text| >= 2 { UnhexIff(text[2..]); }
  }

  lemma Prefixes(bytes: seq<int>, b: int, rest: Option<seq<int>>)
    ensures Prepend([], rest) == rest
    ensures Prepend(bytes, Prepend([b], rest)) == Prepend(bytes + [b], rest)
  {
    if rest.Some? {
      assert [] + rest.value == rest.value;
      assert bytes + ([b] + rest.value) == bytes + [b] + rest.value;
    }
  }

  /** The decoding loop over characters two by two. */
  method UnescBin(text: seq<int>) returns (raw: Option<seq<int>>)
    ensures raw == Unescaped(text)
  {
    if |text| < 2 || |text| % 2 != 0 { return None; }
    if text[0] != BACKSLASH || text[1] != LETTER_X { return None; }
    var at := 2;
    var bytes: seq<int> := [];
    Prefixes(bytes, 0, Unhex(text[2..]));
    while at != |text|
      invariant 2 <= at <= |text| && at % 2 == 0
      invariant Unescaped(text) == Prepend(bytes, Unhex(text[at..]))
      decreases |text| - at
    {
      var hi := Hex.Value(text[at]);
      if hi < 0 { return None; }
      var lo := Hex.Value(text[at + 1]);
      if lo < 0 { return None; }
      assert text[at..][2..] == text[at + 2..];
      Prefixes(bytes, hi * 16 + lo, Unhex(text[at + 2..]));
      bytes := bytes + [hi * 16 + lo];
      at := at + 2;
    }
    assert bytes + [] == bytes;
    return Some(bytes);
  }

  /** The buffer holds the text of raw from begin on, and a zero after it. */
  ghost predicate Holds(o: seq<int>, begin: nat, raw: seq<int>) {
    && AllBytes(raw) && begin + 2 * |raw| + 3 <= |o| && o[begin] == BACKSLASH && o[begin + 1] == LETTER_X
    && (forall p | begin + 2 <= p < begin + 2 + 2 * |raw| :: o[p] == HexAt(raw, p - begin - 2))
    && o[begin + 2 * |raw| + 2] == 0
  }

  lemma HexPair(raw: seq<int>, k: nat)
    requires AllBytes(raw) && k < |raw|
    ensures 0 <= raw[k] < 256
    ensures HexAt(raw, 2 * k) == Hex.Digit(raw[k] / 16) as int && HexAt(raw, 2 * k + 1) == Hex.Digit(raw[k] % 16) as int
  {
  }

  lemma HoldsText(o: seq<int>, begin: nat, raw: seq<int>)
    requires Holds(o, begin, raw)
    ensures o[begin..begin + 2 * |raw| + 2] == Escaped(raw)
  {
    hide HexAt;
  }

  /** esc_bin into a buffer, front to back. */
  method EscBin(raw: seq<int>, out: array<int>, begin: nat)
    requires AllBytes(raw) && begin + 2 * |raw| + 3 <= out.Length
    modifies out
    ensures out[begin..begin + 2 * |raw| + 2] == Escaped(raw) && out[begin + 2 * |raw| + 2] == 0
    ensures forall p | 0 <= p < out.Length && !(begin <= p < begin + 2 * |raw| + 3) :: out[p] == old(out[p])
  {
    hide Hex.Digit, HexAt, Escaped;
    out[begin], out[begin + 1] := BACKSLASH, LETTER_X;
    for i := 0 to |raw|
      invariant out[begin] == BACKSLASH && out[begin + 1] == LETTER_X
      invariant forall p | begin + 2 <= p < begin + 2 + 2 * i :: out[p] == HexAt(raw, p - begin - 2)
      invariant forall p | 0 <= p < out.Length && !(begin <= p < begin + 2 + 2 * i) :: out[p] == old(out[p])
    {
      var here := begin + 2 + 2 * i;
      HexPair(raw, i);
      out[here] := Hex.Digit(raw[i] / 16) as int;
      out[here + 1] := Hex.Digit(raw[i] % 16) as int;
    }
    out[begin + 2 * |raw| + 2] := 0;
    HoldsText(out[..], begin, raw);
    assert out[..][begin..begin + 2 * |raw| + 2] == out[begin..begin + 2 * |raw| + 2];
  }

  /** The backward loop: digits of byte k go to places past every unread byte. */
  method ExpandPairs(out: array<int>, begin: nat, size: nat, ghost raw: seq<int>)
    requires |raw| == size && begin + 2 * size + 2 <= out.Length && AllBytes(raw)
    requires forall p | begin <= p < begin + size :: out[p] == raw[p - begin]
    modifies out
    ensures forall p | begin + 2 <= p < begin + 2 * size + 2 :: out[p] == HexAt(raw, p - begin - 2)
    ensures forall p | 0 <= p < out.Length && !(begin <= p < begin + 2 * size + 2) :: out[p] == old(out[p])
  {
    hide Hex.Digit, HexAt, AllBytes;
    var rawAt := begin + size;
    var cooked := begin + 2 * size + 1;
    while rawAt > begin
      invariant begin <= rawAt && cooked == begin + 2 * (rawAt - begin) + 1
      invariant forall p | begin <= p < rawAt :: out[p] == raw[p - begin]
      invariant forall p | cooked < p < begin + 2 * size + 2 :: out[p] == HexAt(raw, p - begin - 2)
      invariant forall p | 0 <= p < out.Length && !(begin <= p < begin + 2 * size + 2) :: out[p] == old(out[p])
    {
      rawAt := rawAt - 1;
      var byte := out[rawAt];
      HexPair(raw, rawAt - begin);
      out[cooked] := Hex.Digit(byte % 16) as int;
      out[cooked - 1] := Hex.Digit(byte / 16) as int;
      cooked := cooked - 2;
    }
  }

  /**
   * The raw bytes stand at the beginning of the buffer they are expanded in. Working backwards,
   * no byte is overwritten before it has been read, and the result is what esc_bin would write.
   */
  method ExpandInPlace(out: array<int>, begin: nat, size: nat)
    requires begin + 2 * size + 3 <= out.Length && AllBytes(out[begin..begin + size])
    modifies out
    ensures out[begin..begin + 2 * size + 2] == Escaped(old(out[begin..begin + size])) && out[begin + 2 * size + 2] == 0
    ensures forall p | 0 <= p < out.Length && !(begin <= p < begin + 2 * size + 3) :: out[p] == old(out[p])
  {
    hide Hex.Digit, HexAt, Escaped;
    ghost var raw := out[begin..begin + size];
    var terminator := begin + 2 * size + 2;
    out[terminator] := 0;
    ExpandPairs(out, begin, size, raw);
    out[begin + 1] := LETTER_X;
    out[begin] := BACKSLASH;
    HoldsText(out[..], begin, raw);
    assert out[..][begin..terminator] == out[begin..terminator];
  }

  /** Writes packed bytes at the beginning of the room [begin, end); false where they run past its end. */
  method Pack(packed: seq<int>, out: array<int>, begin: nat, end: nat) returns (ok: bool)
    requires begin <= end <= out.Length
    modifies out
    ensures ok <==> |packed| <= end - begin
    ensures ok ==> forall p | begin <= p < begin + |packed| :: out[p] == packed[p - begin]
    ensures forall p | 0 <= p < out.Length && !(begin <= p < end && p < begin + |packed|) :: out[p] == old(out[p])
  {
    for i := 0 to |packed|
      invariant i <= end - begin
      invariant forall p | begin <= p < begin + i :: out[p] == packed[p - begin]
      invariant forall p | 0 <= p < out.Length && !(begin <= p < begin + i) :: out[p] == old(out[p])
    {
      if begin + i == end { return false; }
      out[begin + i] := packed[i];
    }
    return true;
  }

  /**
   * into_buf of an operation: packed, then expanded in the same room. It succeeds exactly when the
   * escaped text and its zero fit; None is the exception, after which only the room may have changed.
   */
  method IntoBuf(packed: seq<int>, out: array<int>, begin: nat, end: nat) returns (stop: Option<nat>)
    requires AllBytes(packed) && begin <= end <= out.Length
    modifies out
    ensures stop.Some? <==> 2 * |packed| + 3 <= end - begin
    ensures stop.Some? ==> stop.value == begin + 2 * |packed| + 3
    ensures stop.Some? ==> out[begin..stop.value - 1] == Escaped(packed) && out[stop.value - 1] == 0
    ensures forall p | 0 <= p < out.Length && !(begin <= p < end && p < begin + 2 * |packed| + 3) ::
              out[p] == old(out[p])
  {
    hide Hex.Digit, HexAt, Escaped;
    var ok := Pack(packed, out, begin, end);
    if !ok || end - begin < 2 * |packed| + 3 {
      return None;
    }
    assert out[begin..begin + |packed|] == packed;
    ExpandInPlace(out, begin, |packed|);
    return Some(begin + 2 * |packed| + 3);
  }
}
