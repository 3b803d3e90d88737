/** Escaping of the message for the JSON line format, into a buffer of fixed size. */
module JsonEscape {
  import opened AsyncHandler
  import opened Wrappers

  const QUOTE: Byte := 0x22
  const BACKSLASH: Byte := 0x5C
  const NEWLINE: Byte := 0x0A
  const LETTER_N: Byte := 0x6E

  predicate Special(b: Byte) {
    b in {QUOTE, BACKSLASH, NEWLINE}
  }

  function EscapeByte(b: Byte): seq<Byte> {
    if b == NEWLINE then [BACKSLASH, LETTER_N] else if Special(b) then [BACKSLASH, b] else [b]
  }

  /** The escaped form of a whole text. */
  function Escape(s: seq<Byte>): seq<Byte> {
    if s == [] then [] else EscapeByte(s[0]) + Escape(s[1..])
  }

  /** A reader of escaped text, from the left; None for half an escape or an unknown one. */
  function Unescape(s: seq<Byte>): Option<seq<Byte>> {
    if s == [] then Some([])
    else if s[0] == 0x5C then
      if |s| < 2 || s[1] !in {0x22, 0x5C, 0x6E} then None
      else
        match Unescape(s[2..])
        case None => None
        case Some(rest) => Some([if s[1] == 0x6E then 0x0A else s[1]] + rest)
    else if s[0] == 0x22 then None
    else
      match Unescape(s[1..])
      case None => None
      case Some(rest) => Some([s[0]] + rest)
  }

  /** The bytes between the quotes of a string in section 7 of RFC 8259, with bytes above
      0x7F standing for parts of encoded characters: no bare quote, backslash or control
      character, and every backslash starts one of the two-character escapes. */
  predicate JsonChars(s: seq<Byte>) {
    if s == [] then true
    else if s[0] == 0x5C then
      |s| >= 2 && s[1] in {0x22, 0x5C, 0x2F, 0x62, 0x66, 0x6E, 0x72, 0x74} && JsonChars(s[2..])
    else s[0] != 0x22 && s[0] >= 0x20 && JsonChars(s[1..])
  }

  // ---------------------------------------------------------------------- laws

  lemma {:induction false} EscapeSnoc(s: seq<Byte>, b: Byte)
    ensures Escape(s + [b]) == Escape(s) + EscapeByte(b)
  {
    if s == [] {
      assert s + [b] == [b] && [b][1..] == [];
      assert Escape([b]) == EscapeByte(b) + Escape([]);
    } else {
      assert (s + [b])[1..] == s[1..] + [b];
      EscapeSnoc(s[1..], b);
      assert Escape(s) + EscapeByte(b) == EscapeByte(s[0]) + (Escape(s[1..]) + EscapeByte(b));
    }
  }

  /** A quote and a backslash get a backslash, a newline becomes backslash and n, and every
      other byte stays as it is. */
  lemma EscapedByte(s: seq<Byte>, b: Byte)
    ensures Escape(s + [b]) == Escape(s) + (if b == 0x0A then [0x5C, 0x6E] else if b == 0x22 || b == 0x5C then [0x5C, b]
                                            else [b])
  {
    EscapeSnoc(s, b);
  }

  /** Undoing the escapes gives the text back. */
  lemma {:induction false} UnescapeEscape(s: seq<Byte>)
    ensures Unescape(Escape(s)) == Some(s)
  {
    if s != [] {
      assert s == [s[0]] + s[1..];
      UnescapeEscape(s[1..]);
      var e := EscapeByte(s[0]);
      assert (e + Escape(s[1..]))[|e|..] == Escape(s[1..]);
    }
  }

  /** The escaped text is well-formed exactly if newline is the only control character in it. */
  lemma {:induction false} EscapeIsJson(s: seq<Byte>)
    ensures JsonChars(Escape(s)) <==> forall i :: 0 <= i < |s| ==> s[i] >= 0x20 || s[i] == NEWLINE
  {
    if s != [] {
      EscapeIsJson(s[1..]);
      var e := EscapeByte(s[0]);
      assert (e + Escape(s[1..]))[|e|..] == Escape(s[1..]);
      assert (forall i :: 0 <= i < |s| ==> s[i] >= 0x20 || s[i] == NEWLINE)
        <==> (s[0] >= 0x20 || s[0] == NEWLINE)
             && (forall i :: 0 <= i < |s[1..]| ==> s[1..][i] >= 0x20 || s[1..][i] == NEWLINE);
    }
  }

  lemma {:induction false} EscapePrefix(s: seq<Byte>, k: nat)
    requires k <= |s|
    ensures |Escape(s[..k])| <= |Escape(s)|
    decreases |s| - k
  {
    if k == |s| {
      assert s[..k] == s;
    } else {
      EscapePrefix(s, k + 1);
      EscapeNext(s, k);
    }
  }

  // ---------------------------------------------------------------------- code

  /** The body of the loop: one byte of text, with its escape. */
  method Put(dst: array<Byte>, i: nat, b: Byte) returns (j: nat)
    requires i + 2 < dst.Length
    modifies dst
    ensures j == i + |EscapeByte(b)| < dst.Length
    ensures dst[..j] == old(dst[..i]) + EscapeByte(b)
  {
    j := i;
    if b == QUOTE || b == BACKSLASH {
      dst[j] := BACKSLASH;
      j := j + 1;
    } else if b == NEWLINE {
      dst[j] := BACKSLASH;
      dst[j + 1] := LETTER_N;
      j := j + 2;
      return;
    }
    dst[j] := b;
    j := j + 1;
  }

  /** lmk_json_escape: `src` is the text before its NUL, k how far the cursor got.  What is written before the NUL is
      the escaped form of a prefix of the text; the prefix stops only where the next byte
      would start beyond dst_size - 3. */
  method EscapeInto(dst: array<Byte>, src: seq<Byte>) returns (len: nat, k: nat)
    requires dst.Length >= 1 && forall i :: 0 <= i < |src| ==> src[i] != 0
    modifies dst
    ensures len < dst.Length && dst[len] == 0
    ensures k <= |src| && dst[..len] == Escape(src[..k])
    ensures k < |src| ==> len + 2 >= dst.Length
    ensures k > 0 ==> |Escape(src[..k - 1])| + 2 < dst.Length
  {
    len, k := 0, 0;
    while k < |src| && len + 2 < dst.Length
      invariant k <= |src| && len < dst.Length && dst[..len] == Escape(src[..k])
      invariant k > 0 ==> |Escape(src[..k - 1])| + 2 < dst.Length
    {
      EscapeNext(src, k);
      len := Put(dst, len, src[k]);
      k := k + 1;
    }
    dst[len] := 0;
  }

  lemma EscapeNext(s: seq<Byte>, k: nat)
    requires k < |s|
    ensures Escape(s[..k + 1]) == Escape(s[..k]) + EscapeByte(s[k])
  {
    assert s[..k + 1] == s[..k] + [s[k]];
    EscapeSnoc(s[..k], s[k]);
  }

  /** Any output meeting that contract undoes to a prefix of the text, to all of it exactly
      when all but the last byte leave two bytes to spare (in particular when the escaped
      text is at most dst_size - 2 long), and is well-formed exactly if newline is the only
      control character in that prefix. */
  lemma EscapedOutput(out: seq<Byte>, src: seq<Byte>, size: nat, k: nat)
    requires size >= 1 && k <= |src| && out == Escape(src[..k])
    requires k < |src| ==> |out| + 2 >= size
    requires k > 0 ==> |Escape(src[..k - 1])| + 2 < size
    ensures Unescape(out) == Some(src[..k])
    ensures Unescape(out) == Some(src) <==> src == [] || |Escape(src[..|src| - 1])| + 2 < size
    ensures |Escape(src)| + 2 <= size ==> Unescape(out) == Some(src)
    ensures JsonChars(out) <==> forall i :: 0 <= i < k ==> src[i] >= 0x20 || src[i] == NEWLINE
  {
    UnescapeEscape(src[..k]);
    EscapeIsJson(src[..k]);
    assert forall i :: 0 <= i < k ==> src[i] == src[..k][i];
    CompleteExactly(src, size, k);
    assert src[..|src|] == src;
  }

  lemma CompleteExactly(src: seq<Byte>, size: nat, k: nat)
    requires size >= 1 && k <= |src|
    requires k < |src| ==> |Escape(src[..k])| + 2 >= size
    requires k > 0 ==> |Escape(src[..k - 1])| + 2 < size
    ensures k == |src| <==> src == [] || |Escape(src[..|src| - 1])| + 2 < size
    ensures |Escape(src)| + 2 <= size ==> k == |src|
  {
    if k < |src| {
      var most := src[..|src| - 1];
      EscapePrefix(most, k);
      assert most[..k] == src[..k];
      assert src == most + [src[|src| - 1]];
      EscapeSnoc(most, src[|src| - 1]);
    }
  }
}
