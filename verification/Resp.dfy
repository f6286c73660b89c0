/**
 * The framing of Redis commands and the reading of Redis replies. A char stands for one byte.
 * Bulk strings follow the "Bulk strings" section of the Redis serialization protocol
 * specification: a length, the bytes themselves and a final CR LF.
 */
module Resp {
  import opened Contracts
  import opened Numerals
  import opened Decimals

  const LIMIT := 128 * 1024
  const MAXIMUM_VALUES := 8
  const CRLF := "\r\n"

  // ----- what a stream says -----

  datatype Reply = Simple(text: string) | Integer(text: string) | Bulk(text: string) | Nil

  /** A value read from the front of a stream and what is left of the stream. */
  datatype Read<T> = Bad | Got(value: T, rest: string)

  /** The position of the first line feed, or the length when there is none. */
  function LineFeed(s: string): (k: nat)
    ensures k <= |s| && (k < |s| ==> s[k] == '\n')
    ensures forall i | 0 <= i < k :: s[i] != '\n'
  {
    if s == "" || s[0] == '\n' then 0 else 1 + LineFeed(s[1..])
  }

  /** readRESPLine: everything before the first line feed, which must end in a carriage return. */
  function Line(s: string): Read<string> {
    var k := LineFeed(s);
    if k == |s| || k == 0 || k + 1 > LIMIT || s[k - 1] != '\r' then Bad else Got(s[..k - 1], s[k + 1..])
  }

  /** strconv's Atoi and ParseInt in base 10 at 64 bits. */
  function Int64(s: string): Option<int> {
    if BigInt(s).Some? && -0x8000_0000_0000_0000 <= BigInt(s).value <= 0x7FFF_FFFF_FFFF_FFFF then BigInt(s) else None
  }

  /** The bytes of a bulk string of a known length, with the CR LF that must follow them. */
  function Payload(length: nat, s: string): Read<Reply> {
    if |s| < length + 2 || s[length..length + 2] != CRLF then Bad else Got(Bulk(s[..length]), s[length + 2..])
  }

  /** What a reply is, once its marker and its first line are read. */
  function After(marker: char, text: string, rest: string): Read<Reply> {
    match marker
    case '+' => Got(Simple(text), rest)
    case ':' => if Int64(text).None? then Bad else Got(Integer(text), rest)
    case '_' => if text != "" then Bad else Got(Nil, rest)
    case '$' =>
      if Int64(text).None? then Bad
      else
        var length := Int64(text).value;
        if length == -1 then Got(Nil, rest)
        else if length < 0 || length > LIMIT then Bad
        else Payload(length, rest)
    case _ => Bad
  }

  /** readRESPReply, on the whole of what is left of a stream. */
  function ReplyOf(s: string): Read<Reply> {
    if s == "" || Line(s[1..]).Bad? then Bad else After(s[0], Line(s[1..]).value, Line(s[1..]).rest)
  }

  // ----- the forms of a reply -----

  /** Every form of reply on the wire: a bulk string of length minus one and an underscore are nil, a plus
      or a colon announces a line, a minus an error, and nothing else announces anything. */
  lemma RepliesOnTheWire(text: string, n: nat, other: char, rest: string)
    requires OneLine(text) && OneLine(Print(n)) && n <= 0x7FFF_FFFF_FFFF_FFFF && other !in "+:_$"
    ensures ReplyOf("$-1\r\n" + rest) == Got(Nil, rest)
    ensures ReplyOf("_\r\n" + rest) == Got(Nil, rest)
    ensures ReplyOf("+" + text + "\r\n" + rest) == Got(Simple(text), rest)
    ensures ReplyOf([other] + text + "\r\n" + rest).Bad?
    ensures ReplyOf(":" + Print(n) + "\r\n" + rest) == Got(Integer(Print(n)), rest)
  {
    hide ReplyOf, OneLine, Int64, Print;
    MinusOne();
    HeadIsRead('$', "-1", rest);
    HeadIsRead('_', "", rest);
    HeadIsRead('+', text, rest);
    HeadIsRead(other, text, rest);
    PrintedFits(n);
    HeadIsRead(':', Print(n), rest);
  }

  lemma PrintedFits(n: nat)
    requires n <= 0x7FFF_FFFF_FFFF_FFFF
    ensures Int64(Print(n)) == Some(n)
  {
    ReadPrinted(n);
    assert IsDigit(Print(n)[0]);
  }

  lemma MinusOne()
    ensures Int64("-1") == Some(-1) && OneLine("-1") && OneLine("")
    ensures Head('$', "-1") == "$-1\r\n" && Head('_', "") == "_\r\n"
  {
    OneDigit('1');
    assert "-1"[1..] == "1";
  }

  // ----- replies are self-delimiting -----

  /** A marker and a line on the wire. */
  function Head(marker: char, text: string): string {
    [marker] + text + CRLF
  }

  predicate OneLine(text: string) {
    '\n' !in text && |text| + 2 <= LIMIT
  }

  lemma LineFeedAt(s: string, k: nat)
    requires k < |s| && s[k] == '\n' && forall i | 0 <= i < k :: s[i] != '\n'
    ensures LineFeed(s) == k
  {
  }

  lemma HeadIsRead(marker: char, text: string, rest: string)
    requires OneLine(text)
    ensures ReplyOf(Head(marker, text) + rest) == After(marker, text, rest)
  {
    hide After;
    var s := Head(marker, text) + rest;
    var t := text + CRLF + rest;
    assert s[1..] == t;
    LineFeedAt(t, |text| + 1);
    assert t[..|text|] == text && t[|text| + 2..] == rest;
  }

  lemma CutHeadIsBad(marker: char, text: string, n: nat)
    requires OneLine(text) && n < |Head(marker, text)|
    ensures ReplyOf(Head(marker, text)[..n]).Bad?
  {
    var s := Head(marker, text)[..n];
    if n > 0 {
      assert s[1..] == (text + CRLF)[..n - 1];
    }
  }

  /** Whatever reply was read, its head was on the stream. */
  lemma ReadHasHead(s: string) returns (text: string, rest: string)
    requires ReplyOf(s).Got?
    ensures OneLine(text) && s == Head(s[0], text) + rest && ReplyOf(s) == After(s[0], text, rest)
  {
    hide After;
    var t := s[1..];
    var k := LineFeed(t);
    text, rest := t[..k - 1], t[k + 1..];
    assert t == text + CRLF + rest && s == [s[0]] + t;
  }

  lemma PayloadIsRead(value: string, rest: string)
    ensures Payload(|value|, value + CRLF + rest) == Got(Bulk(value), rest)
  {
    var s := value + CRLF + rest;
    assert s[|value|..|value| + 2] == CRLF && s[..|value|] == value && s[|value| + 2..] == rest;
  }

  /** The bytes of one bulk string on the wire. */
  function Frame(value: string): string {
    Head('$', Print(|value|)) + (value + CRLF)
  }

  lemma SmallNumberFits(n: nat)
    requires n <= LIMIT
    ensures OneLine(Print(n)) && Int64(Print(n)) == Some(n)
  {
    assert Pow10(6) == 1_000_000;
    PrintedLength(n, 6);
    ReadPrinted(n);
    assert IsDigit(Print(n)[0]);
  }

  lemma PrintedInt64(n: nat)
    ensures Int64(Print(n)) == None || Int64(Print(n)) == Some(n)
  {
    ReadPrinted(n);
    assert IsDigit(Print(n)[0]);
  }

  /** Reading back what was written: whatever bytes the value holds, CR LF among them, and
      whatever follows it. */
  lemma FrameIsRead(value: string, rest: string)
    requires |value| <= LIMIT
    ensures ReplyOf(Frame(value) + rest) == Got(Bulk(value), rest)
  {
    SmallNumberFits(|value|);
    hide ReplyOf, Payload, Head, OneLine, Int64, Print;
    var tail := value + CRLF + rest;
    HeadIsRead('$', Print(|value|), tail);
    FrameThen(value, rest);
    PayloadIsRead(value, rest);
  }

  lemma FrameThen(value: string, rest: string)
    ensures Frame(value) + rest == Head('$', Print(|value|)) + (value + CRLF + rest)
  {
    hide Head, Print;
  }

  lemma LongPayloadIsBad(n: nat, rest: string)
    requires n > LIMIT
    ensures After('$', Print(n), rest).Bad?
  {
    hide Int64, Print;
    PrintedInt64(n);
  }

  /** A bulk string cut short is an error, never a shorter value. */
  lemma CutFrameIsBad(value: string, n: nat)
    requires |value| <= LIMIT && n < |Frame(value)|
    ensures ReplyOf(Frame(value)[..n]).Bad?
  {
    SmallNumberFits(|value|);
    hide ReplyOf, Head, OneLine, Int64, Print;
    var head := Head('$', Print(|value|));
    if n < |head| {
      assert Frame(value)[..n] == head[..n];
      CutHeadIsBad('$', Print(|value|), n);
    } else {
      var tail := (value + CRLF)[..n - |head|];
      assert Frame(value)[..n] == head + tail;
      HeadIsRead('$', Print(|value|), tail);
    }
  }

  /** A value above the limit, up to the longest announced in one line, is refused by the reader,
      as by the writer. */
  lemma LongFrameIsBad(value: string, rest: string)
    requires |value| > LIMIT && OneLine(Print(|value|))
    ensures ReplyOf(Frame(value) + rest).Bad?
  {
    hide ReplyOf, After, Head, OneLine, Print;
    LongPayloadIsBad(|value|, value + CRLF + rest);
    HeadIsRead('$', Print(|value|), value + CRLF + rest);
    FrameThen(value, rest);
  }

  /** A reader that takes `used` from a stream takes the same from every stream that starts with
      it, and makes nothing of any shorter piece of it. */
  ghost predicate Delimits(used: string, value: Reply) {
    && (forall rest :: ReplyOf(used + rest) == Got(value, rest))
    && (forall n: nat | n < |used| :: ReplyOf(used[..n]).Bad?)
  }

  /** What a reply uses of the stream behind its head. */
  function Body(value: Reply): string {
    if value.Bulk? then value.text + CRLF else ""
  }

  lemma AfterTakes(marker: char, text: string, rest: string)
    requires After(marker, text, rest).Got?
    ensures var r := After(marker, text, rest); rest == Body(r.value) + r.rest
  {
    var r := After(marker, text, rest);
    if r.value.Bulk? {
      assert rest == r.value.text + CRLF + r.rest;
    }
  }

  lemma AfterGives(marker: char, text: string, rest: string, more: string)
    requires After(marker, text, rest).Got?
    ensures var value := After(marker, text, rest).value;
            After(marker, text, Body(value) + more) == Got(value, more)
  {
    var value := After(marker, text, rest).value;
    if value.Bulk? {
      PayloadIsRead(value.text, more);
    } else {
      assert Body(value) + more == more;
    }
  }

  lemma AfterNeedsAll(marker: char, text: string, rest: string, n: nat)
    requires After(marker, text, rest).Got? && n < |Body(After(marker, text, rest).value)|
    ensures After(marker, text, Body(After(marker, text, rest).value)[..n]).Bad?
  {
  }

  lemma ReplyContinues(marker: char, text: string, rest: string, more: string)
    requires OneLine(text) && After(marker, text, rest).Got?
    ensures var value := After(marker, text, rest).value;
            ReplyOf(Head(marker, text) + Body(value) + more) == Got(value, more)
  {
    hide ReplyOf, After, Head, OneLine, Body;
    var head, body := Head(marker, text), Body(After(marker, text, rest).value);
    HeadIsRead(marker, text, body + more);
    AfterGives(marker, text, rest, more);
    assert head + body + more == head + (body + more);
  }

  lemma CutReplyIsBad(marker: char, text: string, rest: string, n: nat)
    requires OneLine(text) && After(marker, text, rest).Got?
    requires n < |Head(marker, text) + Body(After(marker, text, rest).value)|
    ensures ReplyOf((Head(marker, text) + Body(After(marker, text, rest).value))[..n]).Bad?
  {
    hide ReplyOf, After, Head, OneLine, Body;
    var head, body := Head(marker, text), Body(After(marker, text, rest).value);
    if n < |head| {
      assert (head + body)[..n] == head[..n];
      CutHeadIsBad(marker, text, n);
    } else {
      var tail := body[..n - |head|];
      assert (head + body)[..n] == head + tail;
      HeadIsRead(marker, text, tail);
      AfterNeedsAll(marker, text, rest, n - |head|);
    }
  }

  /** Replies of every kind are self-delimiting: a reply depends on the bytes it used alone, and
      no proper prefix of them reads as a reply. */
  lemma ReplyIsSelfDelimiting(s: string) returns (used: string)
    requires ReplyOf(s).Got?
    ensures s == used + ReplyOf(s).rest && Delimits(used, ReplyOf(s).value)
  {
    assert s != "";
    hide *;
    var marker := s[0];
    var text, rest := ReadHasHead(s);
    AfterTakes(marker, text, rest);
    var value := ReplyOf(s).value;
    used := Head(marker, text) + Body(value);
    UsedThenRest(Head(marker, text), Body(value), ReplyOf(s).rest);
    DelimitsHead(marker, text, rest);
  }

  lemma UsedThenRest(head: string, body: string, rest: string)
    ensures head + (body + rest) == head + body + rest
  {
  }

  lemma DelimitsHead(marker: char, text: string, rest: string)
    requires OneLine(text) && After(marker, text, rest).Got?
    ensures var value := After(marker, text, rest).value; Delimits(Head(marker, text) + Body(value), value)
  {
    hide ReplyOf, After, Head, OneLine, Body;
    var value := After(marker, text, rest).value;
    var used := Head(marker, text) + Body(value);
    forall more ensures ReplyOf(used + more) == Got(value, more) {
      ReplyContinues(marker, text, rest, more);
    }
    forall n: nat | n < |used| ensures ReplyOf(used[..n]).Bad? {
      CutReplyIsBad(marker, text, rest, n);
    }
  }

  // ----- sequences of values -----

  function Frames(values: seq<string>): string {
    if values == [] then "" else Frames(values[..|values| - 1]) + Frame(values[|values| - 1])
  }

  function Bulks(values: seq<string>): seq<Reply> {
    seq(|values|, i requires 0 <= i < |values| => Bulk(values[i]))
  }

  function Replies(s: string, count: nat): Read<seq<Reply>> {
    if count == 0 then Got([], s)
    else
      var first := ReplyOf(s);
      if first.Bad? then Bad
      else
        var more := Replies(first.rest, count - 1);
        if more.Bad? then Bad else Got([first.value] + more.value, more.rest)
  }

  lemma {:induction false} FramesFromFront(first: string, values: seq<string>)
    ensures Frames([first] + values) == Frame(first) + Frames(values)
  {
    var all := [first] + values;
    if values == [] {
      assert all == [first] && all[..0] == [];
    } else {
      var front, last := values[..|values| - 1], values[|values| - 1];
      assert all[..|all| - 1] == [first] + front;
      FramesFromFront(first, front);
      hide Frame, Frames;
      UsedThenRest(Frame(first), Frames(front), Frame(last));
    }
  }

  /** Any sequence of values is read back one by one, with the stream left exactly behind them. */
  lemma {:induction false} FramesAreRead(values: seq<string>, rest: string)
    requires forall v | v in values :: |v| <= LIMIT
    ensures Replies(Frames(values) + rest, |values|) == Got(Bulks(values), rest)
  {
    hide ReplyOf, Frame;
    if values == [] {
      assert Frames(values) + rest == rest;
    } else {
      var tail := values[1..];
      assert [values[0]] + tail == values;
      FramesFromFront(values[0], tail);
      assert Frames(values) + rest == Frame(values[0]) + (Frames(tail) + rest);
      FrameIsRead(values[0], Frames(tail) + rest);
      FramesAreRead(tail, rest);
      assert [Bulk(values[0])] + Bulks(tail) == Bulks(values);
    }
  }

  /** Two commands of as many values never look alike on the wire. */
  lemma FramesAreUnambiguous(a: seq<string>, b: seq<string>)
    requires |a| == |b| && (forall v | v in a :: |v| <= LIMIT) && (forall v | v in b :: |v| <= LIMIT)
    requires Frames(a) == Frames(b)
    ensures a == b
  {
    hide Frames, Replies;
    FramesAreRead(a, "");
    FramesAreRead(b, "");
    forall i | 0 <= i < |a| ensures a[i] == b[i] {
      assert Bulks(a)[i] == Bulk(a[i]) && Bulks(b)[i] == Bulk(b[i]);
    }
  }

  // ----- the writer and the reader -----

  function Command(values: seq<string>): string {
    "*" + Print(|values|) + CRLF + Frames(values)
  }

  lemma FrameIs(value: string)
    ensures "$" + Print(|value|) + CRLF + value + CRLF == Frame(value)
  {
  }

  lemma LineIsRead(text: string, rest: string)
    requires '\n' !in text && |text| + 2 <= LIMIT
    ensures Line(text + CRLF + rest) == Got(text, rest)
  {
    var t := text + CRLF + rest;
    LineFeedAt(t, |text| + 1);
    assert t[..|text|] == text && t[|text| + 2..] == rest;
  }

  /** A command announces how many values follow, and these are its frames. */
  lemma CommandAnnouncesCount(values: seq<string>)
    requires |values| <= MAXIMUM_VALUES
    ensures Command(values) != "" && Command(values)[0] == '*'
    ensures Line(Command(values)[1..]) == Got(Print(|values|), Frames(values))
    ensures NatValue(Print(|values|)) == |values|
  {
    hide Line, Frames, Print;
    ReadPrinted(|values|);
    SmallNumberFits(|values|);
    LineIsRead(Print(|values|), Frames(values));
    assert Command(values)[1..] == Print(|values|) + CRLF + Frames(values);
  }

  /** writeRESPArray: one to eight values within the limit, or an error. */
  method WriteArray(values: seq<string>) returns (out: string, ok: bool)
    ensures ok <==> 0 < |values| <= MAXIMUM_VALUES && forall v | v in values :: |v| <= LIMIT
    ensures ok ==> out == Command(values)
  {
    hide Print, Frame;
    out, ok := "", false;
    if |values| == 0 || |values| > MAXIMUM_VALUES {
      return;
    }
    out := "*" + Print(|values|) + CRLF;
    ghost var head := out;
    for i := 0 to |values|
      invariant out == head + Frames(values[..i]) && forall v | v in values[..i] :: |v| <= LIMIT
    {
      if |values[i]| > LIMIT {
        return;
      }
      FramesAppend(values, i);
      assert values[..i + 1] == values[..i] + [values[i]];
      FrameIs(values[i]);
      out := out + ("$" + Print(|values[i]|) + CRLF + values[i] + CRLF);
    }
    assert values[..|values|] == values;
    ok := true;
  }

  lemma FramesAppend(values: seq<string>, i: nat)
    requires i < |values|
    ensures Frames(values[..i + 1]) == Frames(values[..i]) + Frame(values[i])
  {
    assert values[..i + 1][..i] == values[..i];
  }

  /** A buffered reader over the bytes a connection delivers before it ends. */
  class Reader {
    const stream: string
    var at: nat

    constructor (bytes: string)
      ensures Valid() && Rest() == bytes
    {
      stream, at := bytes, 0;
    }

    ghost predicate Valid()
      reads this
    {
      at <= |stream|
    }

    function Rest(): string
      requires Valid()
      reads this
    {
      stream[at..]
    }

    method ReadLine() returns (line: string, ok: bool)
      requires Valid()
      modifies this
      ensures Valid()
      ensures ok <==> Line(old(Rest())).Got?
      ensures ok ==> line == Line(old(Rest())).value && Rest() == Line(old(Rest())).rest
    {
      line, ok := "", false;
      ghost var all := Rest();
      var start := at;
      while at < |stream| && stream[at] != '\n'
        invariant start <= at <= |stream|
        invariant forall i | start <= i < at :: stream[i] != '\n'
      {
        at := at + 1;
      }
      assert forall i | 0 <= i < at - start :: all[i] == stream[start + i];
      if at == |stream| {
        assert LineFeed(all) == |all|;
        return;
      }
      LineFeedAt(all, at - start);
      at := at + 1;
      var text := stream[start..at];
      if |text| < 2 || |text| > LIMIT || text[|text| - 2] != '\r' {
        return;
      }
      line, ok := text[..|text| - 2], true;
    }

    method ReadReply() returns (reply: Reply, ok: bool)
      requires Valid()
      modifies this
      ensures Valid()
      ensures ok <==> ReplyOf(old(Rest())).Got?
      ensures ok ==> reply == ReplyOf(old(Rest())).value && Rest() == ReplyOf(old(Rest())).rest
    {
      hide Line, LineFeed, BigInt;
      reply, ok := Nil, false;
      if at == |stream| {
        return;
      }
      var marker := stream[at];
      ghost var all := Rest();
      at := at + 1;
      assert Rest() == all[1..];
      if marker !in ['+', '-', ':', '$', '_'] {
        return;
      }
      var line, lineOk := ReadLine();
      if !lineOk || marker == '-' {
        return;
      }
      if marker == '+' {
        return Simple(line), true;
      } else if marker == ':' {
        return Integer(line), Int64(line).Some?;
      } else if marker == '_' {
        return Nil, line == "";
      }
      var length := Int64(line);
      if length.None? {
        return;
      }
      if length.value == -1 {
        return Nil, true;
      }
      if length.value < 0 || length.value > LIMIT || |stream| - at < length.value + 2 {
        return;
      }
      ghost var left := Rest();
      var payload := stream[at..at + length.value + 2];
      assert payload == left[..length.value + 2];
      assert payload[length.value..] == left[length.value..length.value + 2];
      if payload[length.value..] != CRLF {
        return;
      }
      at := at + length.value + 2;
      assert Rest() == left[length.value + 2..];
      assert payload[..length.value] == left[..length.value];
      return Bulk(payload[..length.value]), true;
    }
  }
}
