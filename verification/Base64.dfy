/** The standard base64 engine: section 4 of RFC 4648, canonical padding, no stray trailing bits. */
module Base64 {
  import opened Prelude

  type sextet = n: nat | n < 64

  /** What a character of base64 text stands for. */
  datatype Mark = Digit(value: sextet) | Pad | Alien(c: char)

  function Classify(c: char): Mark {
    if 'A' <= c <= 'Z' then Digit(c as int - 'A' as int)
    else if 'a' <= c <= 'z' then Digit(c as int - 'a' as int + 26)
    else if '0' <= c <= '9' then Digit(c as int - '0' as int + 52)
    else if c == '+' then Digit(62)
    else if c == '/' then Digit(63)
    else if c == '=' then Pad
    else Alien(c)
  }

  function Show(m: Mark): char {
    match m
    case Pad => '='
    case Alien(c) => c
    case Digit(n) =>
      if n < 26 then 'A' + n as char
      else if n < 52 then 'a' + (n - 26) as char
      else if n < 62 then '0' + (n - 52) as char
      else if n == 62 then '+'
      else '/'
  }

  lemma ShowClassify(c: char)
    ensures Show(Classify(c)) == c
  {
  }

  lemma ClassifyShow(m: Mark)
    requires !m.Alien?
    ensures Classify(Show(m)) == m
  {
  }

  // The four sextets of three bytes, and back.
  function First(a: byte): sextet { a / 4 }
  function Second(a: byte, b: byte): sextet { a % 4 * 16 + b / 16 }
  function Third(b: byte, c: byte): sextet { b % 16 * 4 + c / 64 }
  function Fourth(c: byte): sextet { c % 64 }
  // The last sextet of one and of two bytes: zero bits fill it up.
  function SecondLast(a: byte): sextet { a % 4 * 16 }
  function ThirdLast(b: byte): sextet { b % 16 * 4 }
  function ByteOne(v0: sextet, v1: sextet): byte { v0 * 4 + v1 / 16 }
  function ByteTwo(v1: sextet, v2: sextet): byte { v1 % 16 * 16 + v2 / 4 }
  function ByteThree(v2: sextet, v3: sextet): byte { v2 % 4 * 64 + v3 }

  lemma JoinSplit(a: byte, b: byte, c: byte)
    ensures ByteOne(First(a), Second(a, b)) == a
    ensures ByteTwo(Second(a, b), Third(b, c)) == b
    ensures ByteThree(Third(b, c), Fourth(c)) == c
  {
  }

  lemma JoinSplitOne(a: byte)
    ensures ByteOne(First(a), SecondLast(a)) == a && SecondLast(a) % 16 == 0
  {
    assert SecondLast(a) / 16 == a % 4;
  }

  lemma JoinSplitTwo(a: byte, b: byte)
    ensures ByteTwo(Second(a, b), ThirdLast(b)) == b && ThirdLast(b) % 4 == 0
  {
    assert Second(a, b) % 16 == b / 16;
    assert ThirdLast(b) / 4 == b % 16;
  }

  lemma SplitJoin(v0: sextet, v1: sextet, v2: sextet, v3: sextet)
    ensures First(ByteOne(v0, v1)) == v0
    ensures Second(ByteOne(v0, v1), ByteTwo(v1, v2)) == v1
    ensures Third(ByteTwo(v1, v2), ByteThree(v2, v3)) == v2
    ensures Fourth(ByteThree(v2, v3)) == v3
  {
  }

  lemma SplitJoinLast(v0: sextet, v1: sextet, v2: sextet)
    ensures v1 % 16 == 0 ==> SecondLast(ByteOne(v0, v1)) == v1
    ensures v2 % 4 == 0 ==> ThirdLast(ByteTwo(v1, v2)) == v2
  {
    assert ByteOne(v0, v1) % 4 == v1 / 16;
    assert ByteTwo(v1, v2) % 16 == v2 / 4;
  }

  function EncodeGroup(bytes: seq<byte>): (marks: seq<Mark>)
    requires 1 <= |bytes| <= 3
    ensures |marks| == 4 && forall m <- marks :: !m.Alien?
  {
    if |bytes| == 1 then [Digit(First(bytes[0])), Digit(SecondLast(bytes[0])), Pad, Pad]
    else if |bytes| == 2 then
      [Digit(First(bytes[0])), Digit(Second(bytes[0], bytes[1])), Digit(ThirdLast(bytes[1])), Pad]
    else
      [Digit(First(bytes[0])), Digit(Second(bytes[0], bytes[1])), Digit(Third(bytes[1], bytes[2])), Digit(Fourth(bytes[2]))]
  }

  /** Padding is allowed in the last group only, and over zero bits. */
  function DecodeGroup(marks: seq<Mark>, final: bool): Option<seq<byte>>
    requires |marks| == 4
  {
    match (marks[0], marks[1], marks[2], marks[3])
    case (Digit(v0), Digit(v1), Digit(v2), Digit(v3)) =>
      Some([ByteOne(v0, v1), ByteTwo(v1, v2), ByteThree(v2, v3)])
    case (Digit(v0), Digit(v1), Digit(v2), Pad) =>
      if final && v2 % 4 == 0 then Some([ByteOne(v0, v1), ByteTwo(v1, v2)]) else None
    case (Digit(v0), Digit(v1), Pad, Pad) =>
      if final && v1 % 16 == 0 then Some([ByteOne(v0, v1)]) else None
    case _ => None
  }

  lemma GroupRoundTrip(bytes: seq<byte>, final: bool)
    requires 1 <= |bytes| <= 3 && (|bytes| < 3 ==> final)
    ensures DecodeGroup(EncodeGroup(bytes), final) == Some(bytes)
  {
    if |bytes| == 1 {
      JoinSplitOne(bytes[0]);
      assert bytes == [bytes[0]];
    } else if |bytes| == 2 {
      JoinSplit(bytes[0], bytes[1], bytes[1]);
      JoinSplitTwo(bytes[0], bytes[1]);
      assert bytes == [bytes[0], bytes[1]];
    } else {
      JoinSplit(bytes[0], bytes[1], bytes[2]);
      assert bytes == [bytes[0], bytes[1], bytes[2]];
    }
  }

  lemma GroupIsCanonical(marks: seq<Mark>, final: bool, bytes: seq<byte>)
    requires |marks| == 4 && DecodeGroup(marks, final) == Some(bytes)
    ensures 1 <= |bytes| <= 3 && (|bytes| < 3 ==> final) && EncodeGroup(bytes) == marks
  {
    var v0, v1 := marks[0].value, marks[1].value;
    if marks[2].Pad? {
      SplitJoin(v0, v1, v0, v0);
      SplitJoinLast(v0, v1, v0);
      assert EncodeGroup(bytes) == [Digit(v0), Digit(v1), Pad, Pad];
    } else if marks[3].Pad? {
      SplitJoin(v0, v1, marks[2].value, v0);
      SplitJoinLast(v0, v1, marks[2].value);
      assert EncodeGroup(bytes) == [Digit(v0), Digit(v1), marks[2], Pad];
    } else {
      SplitJoin(v0, v1, marks[2].value, marks[3].value);
      assert EncodeGroup(bytes) == [Digit(v0), Digit(v1), marks[2], marks[3]];
    }
  }

  function EncodeMarks(bytes: seq<byte>): (marks: seq<Mark>)
    ensures |marks| == (|bytes| + 2) / 3 * 4
    ensures forall m <- marks :: !m.Alien?
  {
    if |bytes| == 0 then []
    else if |bytes| <= 3 then EncodeGroup(bytes)
    else EncodeGroup(bytes[..3]) + EncodeMarks(bytes[3..])
  }

  function DecodeMarks(marks: seq<Mark>): Option<seq<byte>> {
    if |marks| == 0 then Some([])
    else if |marks| < 4 then None
    else
      match (DecodeGroup(marks[..4], |marks| == 4), DecodeMarks(marks[4..]))
      case (Some(group), Some(rest)) => Some(group + rest)
      case _ => None
  }

  lemma {:induction false} MarksRoundTrip(bytes: seq<byte>)
    ensures DecodeMarks(EncodeMarks(bytes)) == Some(bytes)
  {
    var marks := EncodeMarks(bytes);
    if 0 < |bytes| <= 3 {
      GroupRoundTrip(bytes, true);
      assert marks[..4] == marks && marks[4..] == [];
      assert bytes + [] == bytes;
    } else if |bytes| > 3 {
      GroupRoundTrip(bytes[..3], false);
      GroupRoundTrip(bytes[..3], true);
      MarksRoundTrip(bytes[3..]);
      assert marks[..4] == EncodeGroup(bytes[..3]) && marks[4..] == EncodeMarks(bytes[3..]);
      assert bytes[..3] + bytes[3..] == bytes;
    }
  }

  lemma {:induction false} MarksAreCanonical(marks: seq<Mark>, bytes: seq<byte>)
    requires DecodeMarks(marks) == Some(bytes)
    ensures EncodeMarks(bytes) == marks
  {
    if |marks| > 0 {
      var group := DecodeGroup(marks[..4], |marks| == 4).value;
      var rest := DecodeMarks(marks[4..]).value;
      GroupIsCanonical(marks[..4], |marks| == 4, group);
      MarksAreCanonical(marks[4..], rest);
      assert marks == marks[..4] + marks[4..];
      if |group| < 3 || rest == [] {
        assert bytes == group && marks == marks[..4];
      } else {
        assert bytes[..3] == group && bytes[3..] == rest;
      }
    }
  }

  function Encode(bytes: seq<byte>): (text: string)
    ensures |text| == (|bytes| + 2) / 3 * 4
  {
    var marks := EncodeMarks(bytes);
    seq(|marks|, i requires 0 <= i < |marks| => Show(marks[i]))
  }

  function Decode(text: string): Option<seq<byte>> {
    DecodeMarks(seq(|text|, i requires 0 <= i < |text| => Classify(text[i])))
  }

  /** The decoder undoes the encoder, and accepts its outputs and nothing else. */
  lemma DecodesExactlyEncodings(text: string, bytes: seq<byte>)
    ensures Decode(text) == Some(bytes) <==> text == Encode(bytes)
  {
    var marks := seq(|text|, i requires 0 <= i < |text| => Classify(text[i]));
    if text == Encode(bytes) {
      var wanted := EncodeMarks(bytes);
      forall i | 0 <= i < |text|
        ensures marks[i] == wanted[i]
      {
        ClassifyShow(wanted[i]);
      }
      assert marks == wanted;
      MarksRoundTrip(bytes);
    }
    if Decode(text) == Some(bytes) {
      MarksAreCanonical(marks, bytes);
      forall i | 0 <= i < |text|
        ensures Encode(bytes)[i] == text[i]
      {
        ShowClassify(text[i]);
      }
      assert Encode(bytes) == text;
    }
  }

  // ---- Against the standard ----

  // The alphabet of table 1 of RFC 4648.
  const UPPER := "ABCDEFGHIJKLMNOPQRSTUVWXYZ"
  const LOWER := "abcdefghijklmnopqrstuvwxyz"
  const DIGITS := "0123456789"

  lemma UpperCase(n: nat)
    requires n < 26
    ensures |UPPER| == 26 && UPPER[n] == 'A' + n as char
  {
  }

  lemma LowerCase(n: nat)
    requires n < 26
    ensures |LOWER| == 26 && LOWER[n] == 'a' + n as char
  {
  }

  lemma UsesAlphabet(n: sextet)
    ensures Show(Digit(n)) == (UPPER + LOWER + DIGITS + "+/")[n]
  {
    if n < 26 {
      UpperCase(n);
    } else if n < 52 {
      LowerCase(n - 26);
    }
  }

  /** Four sextets are the 24 bits of three bytes, most significant first. */
  lemma GroupIsBigEndian(a: byte, b: byte, c: byte)
    ensures 0x1_0000 * a + 0x100 * b + c == 0x4_0000 * First(a) + 0x1000 * Second(a, b) + 0x40 * Third(b, c) + Fourth(c)
  {
  }

  /** A last group of one or two bytes is the same with zero bytes, and pads for the sextets that are zero bits only. */
  lemma LastGroups(a: byte, b: byte)
    ensures EncodeGroup([a]) == [Digit(First(a)), Digit(Second(a, 0)), Pad, Pad]
    ensures EncodeGroup([a, b]) == [Digit(First(a)), Digit(Second(a, b)), Digit(Third(b, 0)), Pad]
  {
  }

  /** Three bytes at a time, in order. */
  lemma GroupsInOrder(group: seq<byte>, rest: seq<byte>)
    requires |group| == 3
    ensures Encode(group + rest) == Encode(group) + Encode(rest)
  {
    assert (group + rest)[..3] == group && (group + rest)[3..] == rest;
    assert group + [] == group;
  }

  /** Test vectors of section 10 of RFC 4648: "f", "fo", "foo" and "foobar". */
  lemma TestVectors()
    ensures Encode([102]) == "Zg==" && Encode([102, 111]) == "Zm8=" && Encode([102, 111, 111]) == "Zm9v"
    ensures Encode([102, 111, 111] + [98, 97, 114]) == "Zm9vYmFy"
  {
    GroupsInOrder([102, 111, 111], [98, 97, 114]);
    assert Encode([98, 97, 114]) == "YmFy";
  }
}
