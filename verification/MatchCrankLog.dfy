/** Reading the fill count out of simulation logs: `parse_match_crank_fills`. */
module MatchCrankLog {
  import opened Prelude
  import opened LittleEndian
  import Base64

  const PREFIX := "Program data: "

  /** Eight bytes that open every MatchCrankLog record. */
  type Discriminant = d: seq<byte> | |d| == 8 witness seq(8, i => 0)

  /** `char::is_whitespace`: the Unicode White_Space property. */
  predicate IsWhitespace(c: char) {
    || '\t' <= c <= '\r' || c == ' ' || c == '\U{85}' || c == '\U{A0}' || c == '\U{1680}'
    || '\U{2000}' <= c <= '\U{200A}' || c == '\U{2028}' || c == '\U{2029}' || c == '\U{202F}'
    || c == '\U{205F}' || c == '\U{3000}'
  }

  function StripPrefix(line: string): Option<string> {
    if PREFIX <= line then Some(line[|PREFIX|..]) else None
  }

  function DropWhitespace(text: string): string {
    if text == "" || !IsWhitespace(text[0]) then text else DropWhitespace(text[1..])
  }

  function TakeToken(text: string): string {
    if text == "" || IsWhitespace(text[0]) then "" else [text[0]] + TakeToken(text[1..])
  }

  /** `rest.split_whitespace().next().unwrap_or(rest)` */
  function FirstToken(rest: string): string {
    var token := TakeToken(DropWhitespace(rest));
    if token == "" then rest else token
  }

  /** The record a line carries, if it carries one. */
  function LineFills(disc: Discriminant, line: string): Option<u32> {
    match StripPrefix(line)
    case None => None
    case Some(rest) =>
      match Base64.Decode(FirstToken(rest))
      case None => None
      case Some(bytes) =>
        if |bytes| < 80 || bytes[..8] != disc then None else Some(U32FromLE(bytes[72..76]))
  }

  /** First qualifying line wins. */
  function ParseFills(disc: Discriminant, logs: seq<string>): Option<u32> {
    if logs == [] then None
    else if LineFills(disc, logs[0]).Some? then LineFills(disc, logs[0])
    else ParseFills(disc, logs[1..])
  }

  // ---- The emitter ----

  datatype Record = Record(market: Pubkey, cranker: Pubkey, fills: u32)

  function WireForm(disc: Discriminant, r: Record): (bytes: seq<byte>)
    ensures |bytes| == 80
    ensures bytes[..8] == disc && bytes[8..40] == r.market && bytes[40..72] == r.cranker
    ensures bytes[72..76] == ToLE(r.fills, 4) && bytes[76..] == [0, 0, 0, 0]
  {
    disc + r.market + r.cranker + ToLE(r.fills, 4) + [0, 0, 0, 0]
  }

  function EmittedLine(disc: Discriminant, r: Record): string {
    PREFIX + Base64.Encode(WireForm(disc, r))
  }

  // ---- Round trip ----

  lemma {:induction false} TokenWithoutWhitespace(text: string)
    requires forall i | 0 <= i < |text| :: !IsWhitespace(text[i])
    ensures TakeToken(text) == text
  {
    if text != "" {
      TokenWithoutWhitespace(text[1..]);
      assert text == [text[0]] + text[1..];
    }
  }

  lemma EncodedIsOneToken(bytes: seq<byte>)
    requires bytes != []
    ensures FirstToken(Base64.Encode(bytes)) == Base64.Encode(bytes)
  {
    var text := Base64.Encode(bytes);
    var marks := Base64.EncodeMarks(bytes);
    forall i | 0 <= i < |text|
      ensures !IsWhitespace(text[i])
    {
      assert text[i] == Base64.Show(marks[i]) && !marks[i].Alien?;
    }
    TokenWithoutWhitespace(text);
  }

  lemma LineRoundTrip(disc: Discriminant, r: Record)
    ensures LineFills(disc, EmittedLine(disc, r)) == Some(r.fills)
  {
    var bytes := WireForm(disc, r);
    var line := EmittedLine(disc, r);
    var text := Base64.Encode(bytes);
    assert PREFIX <= line && line[|PREFIX|..] == text;
    EncodedIsOneToken(bytes);
    Base64.DecodesExactlyEncodings(text, bytes);
    assert bytes[..8] == disc;
    assert bytes[72..76] == ToLE(r.fills, 4);
    PowersOf256();
    FromTo(r.fills, 4);
  }

  /** `None` exactly when no line qualifies; otherwise the first qualifying line decides. */
  lemma {:induction false} ParseFindsFirst(disc: Discriminant, logs: seq<string>)
    ensures ParseFills(disc, logs).None? <==> forall k | 0 <= k < |logs| :: LineFills(disc, logs[k]).None?
    ensures ParseFills(disc, logs).Some? ==>
              exists k | 0 <= k < |logs| ::
                LineFills(disc, logs[k]) == ParseFills(disc, logs)
                && forall i | 0 <= i < k :: LineFills(disc, logs[i]).None?
  {
    if logs != [] {
      if LineFills(disc, logs[0]).None? {
        ParseFindsFirst(disc, logs[1..]);
        assert forall k | 1 <= k < |logs| :: logs[k] == logs[1..][k - 1];
      } else {
        assert LineFills(disc, logs[0]) == ParseFills(disc, logs);
      }
    }
  }

  /** Line `k` reads so many fills, and no line before it reads anything. */
  ghost predicate ReadsFirst(disc: Discriminant, logs: seq<string>, k: nat, fills: u32) {
    k < |logs| && LineFills(disc, logs[k]) == Some(fills) && forall i | 0 <= i < k :: LineFills(disc, logs[i]).None?
  }

  lemma ParsesFirst(disc: Discriminant, logs: seq<string>, fills: u32)
    ensures ParseFills(disc, logs) == Some(fills) <==> exists k :: ReadsFirst(disc, logs, k, fills)
  {
    ParseFindsFirst(disc, logs);
    if ParseFills(disc, logs).Some? {
      var j :| 0 <= j < |logs| && LineFills(disc, logs[j]) == ParseFills(disc, logs)
               && forall i | 0 <= i < j :: LineFills(disc, logs[i]).None?;
      assert ReadsFirst(disc, logs, j, ParseFills(disc, logs).value);
      if k: nat :| ReadsFirst(disc, logs, k, fills) {
        assert j == k;
      }
    }
  }

  /** An emitted record is read back from any log whose earlier lines carry no record. */
  lemma {:induction false} LogRoundTrip(disc: Discriminant, before: seq<string>, r: Record, after: seq<string>)
    requires forall k | 0 <= k < |before| :: LineFills(disc, before[k]).None?
    ensures ParseFills(disc, before + [EmittedLine(disc, r)] + after) == Some(r.fills)
  {
    var logs := before + [EmittedLine(disc, r)] + after;
    if before == [] {
      LineRoundTrip(disc, r);
    } else {
      LogRoundTrip(disc, before[1..], r, after);
      assert logs[1..] == before[1..] + [EmittedLine(disc, r)] + after;
    }
  }

  /** A record of another event, or a truncated one, is not mistaken for a fill count. */
  lemma OtherRecordsAreIgnored(disc: Discriminant, bytes: seq<byte>)
    requires bytes != [] && (|bytes| < 80 || bytes[..8] != disc)
    ensures LineFills(disc, PREFIX + Base64.Encode(bytes)).None?
  {
    var text := Base64.Encode(bytes);
    var line := PREFIX + text;
    assert PREFIX <= line && line[|PREFIX|..] == text;
    EncodedIsOneToken(bytes);
    Base64.DecodesExactlyEncodings(text, bytes);
  }

  lemma {:induction false} TokenBeforeSpace(text: string, more: string)
    requires forall i | 0 <= i < |text| :: !IsWhitespace(text[i])
    ensures TakeToken(text + " " + more) == text
  {
    if text != "" {
      TokenBeforeSpace(text[1..], more);
      assert (text + " " + more)[1..] == text[1..] + " " + more;
      assert text == [text[0]] + text[1..];
    }
  }

  /** Further space-separated chunks on the line do not matter. */
  lemma MoreChunksDoNotMatter(disc: Discriminant, r: Record, more: string)
    ensures LineFills(disc, EmittedLine(disc, r) + " " + more) == Some(r.fills)
  {
    var text := Base64.Encode(WireForm(disc, r));
    var marks := Base64.EncodeMarks(WireForm(disc, r));
    var line := EmittedLine(disc, r) + " " + more;
    assert PREFIX <= line && line[|PREFIX|..] == text + " " + more;
    forall i | 0 <= i < |text|
      ensures !IsWhitespace(text[i])
    {
      assert text[i] == Base64.Show(marks[i]) && !marks[i].Alien?;
    }
    TokenBeforeSpace(text, more);
    LineRoundTrip(disc, r);
    EncodedIsOneToken(WireForm(disc, r));
    assert EmittedLine(disc, r)[|PREFIX|..] == text;
  }

  /** A line that is not program data reads nothing. */
  lemma OnlyProgramData(disc: Discriminant, line: string)
    requires LineFills(disc, line).Some?
    ensures |line| > 14 && line[..14] == "Program data: "
  {
  }
}
