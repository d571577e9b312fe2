/**
 * The text form in which messages travel, fields separated by ":::" (RaceCrypto.cpp), and when
 * parsing gives back the message that was formatted.
 */
module Delimited {
  import opened Wrappers
  import opened Messages
  import opened Decimal

  const DELIMITER: string := ":::"
  const NPOS: nat := 0xFFFF_FFFF_FFFF_FFFF
  const WORD: nat := 0x1_0000_0000_0000_0000

  predicate DelimiterAt(s: string, i: int) {
    0 <= i && i + 3 <= |s| && s[i] == ':' && s[i + 1] == ':' && s[i + 2] == ':'
  }

  predicate HasDelimiter(s: string) {
    exists i :: 0 <= i < |s| && DelimiterAt(s, i)
  }

  /** std::string::find: the first occurrence at or after a position. */
  function Find(s: string, from: nat): (r: Option<nat>)
    ensures r.Some? ==> from <= r.value && DelimiterAt(s, r.value) && forall i :: from <= i < r.value ==> !DelimiterAt(s, i)
    ensures r.None? ==> forall i :: from <= i ==> !DelimiterAt(s, i)
    decreases |s| - from
  {
    if from + 3 > |s| then None
    else if DelimiterAt(s, from) then Some(from)
    else Find(s, from + 1)
  }

  /** The fields of a text, cut at each first delimiter from the left. */
  function Split(s: string): (tokens: seq<string>)
    ensures tokens != []
  {
    var p := Find(s, 0);
    if p.None? then [s] else [s[..p.value]] + Split(s[p.value + 3..])
  }

  function Join(tokens: seq<string>): string
    requires tokens != []
  {
    if |tokens| == 1 then tokens[0] else tokens[0] + DELIMITER + Join(tokens[1..])
  }

  /** The loop of both parsers: find, cut, erase, until no delimiter is left. */
  method SplitTokens(msg: string) returns (tokens: seq<string>)
    ensures tokens == Split(msg)
  {
    tokens := [];
    var rest := msg;
    var pos := Find(rest, 0);
    while pos.Some?
      invariant pos == Find(rest, 0)
      invariant tokens + Split(rest) == Split(msg)
      decreases |rest|
    {
      tokens := tokens + [rest[..pos.value]];
      rest := rest[pos.value + 3..];
      pos := Find(rest, 0);
    }
    tokens := tokens + [rest];
  }

  // ----- when splitting undoes joining -----

  /** A field that can stand before a delimiter. */
  predicate Clean(t: string) {
    !HasDelimiter(t) && (t == "" || t[|t| - 1] != ':')
  }

  predicate Separable(tokens: seq<string>) {
    && tokens != []
    && (forall i :: 0 <= i < |tokens| - 1 ==> Clean(tokens[i]))
    && !HasDelimiter(tokens[|tokens| - 1])
  }

  lemma {:induction false} SplitSeparable(s: string)
    ensures Separable(Split(s))
  {
    var p := Find(s, 0);
    if p.Some? {
      var head, tail := s[..p.value], s[p.value + 3..];
      SplitSeparable(tail);
      forall i | 0 <= i < |head| ensures !DelimiterAt(head, i) {
        assert DelimiterAt(head, i) ==> DelimiterAt(s, i);
      }
      if head != "" && head[|head| - 1] == ':' {
        assert DelimiterAt(s, p.value - 1);
      }
      assert Clean(head);
    }
  }

  /** In a clean field followed by a delimiter, that delimiter is the first one. */
  lemma FindAfterClean(t: string, rest: string)
    ensures Find(t + DELIMITER + rest, 0) == Some(|t|) <==> Clean(t)
  {
    var s := t + DELIMITER + rest;
    assert DelimiterAt(s, |t|);
    if Clean(t) {
      forall i | 0 <= i < |t| ensures !DelimiterAt(s, i) {
        assert !DelimiterAt(t, i) && s[|t| - 1] == t[|t| - 1];
      }
    } else {
      if HasDelimiter(t) {
        var i :| 0 <= i < |t| && DelimiterAt(t, i);
        assert DelimiterAt(s, i);
      } else {
        assert DelimiterAt(s, |t| - 1);
      }
    }
  }

  lemma {:induction false} SplitJoin(tokens: seq<string>)
    requires Separable(tokens)
    ensures Split(Join(tokens)) == tokens
  {
    if |tokens| > 1 {
      var rest := Join(tokens[1..]);
      assert Separable(tokens[1..]);
      SplitJoin(tokens[1..]);
      FindAfterClean(tokens[0], rest);
      var s := tokens[0] + DELIMITER + rest;
      assert s[..|tokens[0]|] == tokens[0] && s[|tokens[0]| + 3..] == rest;
    }
  }

  /** Splitting gives back the joined fields exactly when no field but the last ends in ':' and none holds the delimiter. */
  lemma SplitUndoesJoin(tokens: seq<string>)
    requires tokens != []
    ensures Split(Join(tokens)) == tokens <==> Separable(tokens)
  {
    SplitSeparable(Join(tokens));
    if Separable(tokens) {
      SplitJoin(tokens);
    }
  }

  lemma {:induction false} JoinSplit(s: string)
    ensures Join(Split(s)) == s
  {
    var p := Find(s, 0);
    if p.Some? {
      JoinSplit(s[p.value + 3..]);
      assert s == s[..p.value] + DELIMITER + s[p.value + 3..];
    }
  }

  // ----- clear messages -----

  function ClrFields(m: ClrMsg): (tokens: seq<string>)
    ensures |tokens| == 7
  {
    ["clrMsg", m.text, m.from, m.to, ToString(m.time), ToString(m.nonce), ToString(m.ampIndex)]
  }

  function FormatClr(m: ClrMsg): string {
    Join(ClrFields(m))
  }

  /** Assignment of an int to an int8_t. */
  function Int8(x: int): (y: int)
    ensures -128 <= y < 128 && (x - y) % 256 == 0
  {
    var r := x % 256;
    if r < 128 then r else r - 256
  }

  predicate ValidClr(m: ClrMsg) {
    LONG_MIN <= m.time <= LONG_MAX && INT_MIN <= m.nonce <= INT_MAX && -128 <= m.ampIndex < 128
  }

  /** The clear message in fields 1 to 6; None when a number does not parse. */
  function ClrFrom(tokens: seq<string>): Option<ClrMsg>
    requires |tokens| >= 7
  {
    var time, nonce, amp := Stol(tokens[4]), Stoi(tokens[5]), Stoi(tokens[6]);
    if time.None? || nonce.None? || amp.None? then None
    else Some(ClrMsg(tokens[1], tokens[2], tokens[3], time.value, nonce.value, Int8(amp.value)))
  }

  function ParseClr(s: string): Option<ClrMsg> {
    var tokens := Split(s);
    if |tokens| == 7 && tokens[0] == "clrMsg" then ClrFrom(tokens) else None
  }

  method ParseDelimitedMessage(msg: string) returns (r: Option<ClrMsg>)
    ensures r == ParseClr(msg)
  {
    var tokens := SplitTokens(msg);
    if |tokens| == 7 && tokens[0] == "clrMsg" {
      r := ClrFrom(tokens);
    } else {
      r := None;
    }
  }

  lemma PlainIsClean(t: string)
    requires forall i :: 0 <= i < |t| ==> t[i] != ':'
    ensures Clean(t)
  {
  }

  lemma NumberIsClean(n: int)
    ensures Clean(ToString(n))
  {
    PrintedHasNoColon(n);
    PlainIsClean(ToString(n));
  }

  lemma ClrNumbers(m: ClrMsg, tokens: seq<string>)
    requires ValidClr(m) && |tokens| >= 7
    requires tokens[1] == m.text && tokens[2] == m.from && tokens[3] == m.to
    requires tokens[4] == ToString(m.time) && tokens[5] == ToString(m.nonce) && tokens[6] == ToString(m.ampIndex)
    ensures ClrFrom(tokens) == Some(m)
  {
    ParsePrinted(m.time, LONG_MIN, LONG_MAX);
    ParsePrinted(m.nonce, INT_MIN, INT_MAX);
    ParsePrinted(m.ampIndex, INT_MIN, INT_MAX);
  }

  predicate CleanTexts(m: ClrMsg) {
    Clean(m.text) && Clean(m.from) && Clean(m.to)
  }

  /** Whatever a parser puts into a message came out of the split, so it is clean. */
  lemma ParsedFieldsClean(s: string, i: nat)
    requires i < |Split(s)| - 1
    ensures Clean(Split(s)[i])
  {
    SplitSeparable(s);
  }

  /** A clear message survives formatting and parsing exactly when its three texts are clean. */
  lemma ClrRoundTrip(m: ClrMsg)
    requires ValidClr(m)
    ensures ParseClr(FormatClr(m)) == Some(m) <==> CleanTexts(m)
  {
    var tokens := Split(FormatClr(m));
    if CleanTexts(m) {
      PlainIsClean("clrMsg");
      NumberIsClean(m.time);
      NumberIsClean(m.nonce);
      NumberIsClean(m.ampIndex);
      SplitJoin(ClrFields(m));
      ClrNumbers(m, tokens);
    } else if |tokens| == 7 {
      ParsedFieldsClean(FormatClr(m), 1);
      ParsedFieldsClean(FormatClr(m), 2);
      ParsedFieldsClean(FormatClr(m), 3);
    }
  }

  // ----- messages with routing fields -----

  /**
   * The JSON text of a list of committee names, as supplied by a JSON library. `parse` is None
   * where the library throws.
   */
  datatype ListCodec = ListCodec(dump: seq<string> -> string, parse: string -> Option<seq<string>>)

  /** The list reads back, and its text can stand before and after a delimiter. */
  predicate Carries(codec: ListCodec, names: seq<string>) {
    codec.parse(codec.dump(names)) == Some(names) && Clean(codec.dump(names))
  }

  function TypeNumber(t: MsgType): int {
    match t case MsgUndef => 0 case MsgClient => 1 case MsgLinks => 2 case MsgBootstrapping => 3 case MsgOther(code) => code
  }

  predicate ValidType(t: MsgType) {
    t.MsgOther? ==> INT_MIN <= t.code <= INT_MAX && !(0 <= t.code <= 3)
  }

  /** static_cast to the enumeration, which keeps numbers that name no message type. */
  function TypeOf(n: int): (t: MsgType)
    ensures TypeNumber(t) == n
    ensures forall k :: ValidType(k) && TypeNumber(k) == n ==> k == t
  {
    if n == 0 then MsgUndef else if n == 1 then MsgClient
    else if n == 2 then MsgLinks else if n == 3 then MsgBootstrapping else MsgOther(n)
  }

  function Numbers(m: ExtClrMsg): seq<string> {
    [ToString(m.body.time), ToString(m.body.nonce), ToString(m.body.ampIndex),
     ToString(m.uuid), ToString(m.ringTtl), ToString(m.ringIdx), ToString(TypeNumber(m.msgType))]
  }

  function ExtFields(codec: ListCodec, m: ExtClrMsg): (tokens: seq<string>)
    ensures |tokens| == 13
  {
    ["extClrMsg"] + [m.body.text, m.body.from, m.body.to] + Numbers(m) + [codec.dump(m.visited), codec.dump(m.sent)]
  }

  function FormatExt(codec: ListCodec, m: ExtClrMsg): string {
    Join(ExtFields(codec, m))
  }

  predicate ValidExt(m: ExtClrMsg) {
    && ValidClr(m.body)
    && LONG_MIN <= m.uuid <= LONG_MAX
    && INT_MIN <= m.ringTtl <= INT_MAX && INT_MIN <= m.ringIdx <= INT_MAX
    && ValidType(m.msgType)
  }

  /** A plain clear message becomes a new message for routing; `digest` is its hash prefix. */
  function FromClr(m: ClrMsg, digest: ClrMsg -> int): ExtClrMsg {
    ExtClrMsg(m, MakeUuid(digest(m)), UNSET_RING_TTL, 0, MsgClient, [], [])
  }

  function ExtFrom(codec: ListCodec, tokens: seq<string>): Option<ExtClrMsg>
    requires |tokens| == 13
  {
    var body, visited, sent := ClrFrom(tokens), codec.parse(tokens[11]), codec.parse(tokens[12]);
    var uuid, ttl, idx, kind := Stol(tokens[7]), Stoi(tokens[8]), Stoi(tokens[9]), Stoi(tokens[10]);
    if visited.None? || sent.None? || body.None? || uuid.None? || ttl.None? || idx.None? || kind.None? then None
    else Some(ExtClrMsg(body.value, uuid.value, ttl.value, idx.value, TypeOf(kind.value), visited.value, sent.value))
  }

  /** The first field is not looked at: seven fields make a clear message, thirteen one with routing fields. */
  function ParseExt(codec: ListCodec, digest: ClrMsg -> int, s: string): Option<ExtClrMsg> {
    var tokens := Split(s);
    if |tokens| == 7 then
      var m := ClrFrom(tokens);
      if m.None? then None else Some(FromClr(m.value, digest))
    else if |tokens| == 13 then ExtFrom(codec, tokens)
    else None
  }

  method ParseDelimitedExtMessage(codec: ListCodec, digest: ClrMsg -> int, msg: string) returns (r: Option<ExtClrMsg>)
    ensures r == ParseExt(codec, digest, msg)
  {
    var tokens := SplitTokens(msg);
    if |tokens| == 7 {
      var m := ClrFrom(tokens);
      r := if m.None? then None else Some(FromClr(m.value, digest));
    } else if |tokens| == 13 {
      r := ExtFrom(codec, tokens);
    } else {
      r := None;
    }
  }

  predicate AllClean(tokens: seq<string>) {
    forall t :: t in tokens ==> Clean(t)
  }

  lemma NumbersAreClean(m: ExtClrMsg)
    ensures AllClean(Numbers(m))
  {
    NumberIsClean(m.body.time);
    NumberIsClean(m.body.nonce);
    NumberIsClean(m.body.ampIndex);
    NumberIsClean(m.uuid);
    NumberIsClean(m.ringTtl);
    NumberIsClean(m.ringIdx);
    NumberIsClean(TypeNumber(m.msgType));
  }

  lemma AllCleanSeparable(head: string, texts: seq<string>, numbers: seq<string>, lists: seq<string>)
    requires Clean(head) && AllClean(texts) && AllClean(numbers) && AllClean(lists)
    ensures Separable([head] + texts + numbers + lists)
  {
    var tokens := [head] + texts + numbers + lists;
    forall i | 0 <= i < |tokens| ensures Clean(tokens[i]) {
      assert tokens[i] in tokens;
    }
  }

  lemma ExtFieldsSeparable(codec: ListCodec, m: ExtClrMsg)
    requires CleanTexts(m.body) && Carries(codec, m.visited) && Carries(codec, m.sent)
    ensures Separable(ExtFields(codec, m))
  {
    PlainIsClean("extClrMsg");
    NumbersAreClean(m);
    var b := m.body;
    AllCleanSeparable("extClrMsg", [b.text, b.from, b.to], Numbers(m), [codec.dump(m.visited), codec.dump(m.sent)]);
  }

  lemma ExtNumbers(codec: ListCodec, m: ExtClrMsg, tokens: seq<string>)
    requires ValidExt(m) && Carries(codec, m.visited) && Carries(codec, m.sent) && |tokens| == 13
    requires ClrFrom(tokens) == Some(m.body)
    requires tokens[7] == ToString(m.uuid) && tokens[8] == ToString(m.ringTtl) && tokens[9] == ToString(m.ringIdx)
    requires tokens[10] == ToString(TypeNumber(m.msgType))
    requires tokens[11] == codec.dump(m.visited) && tokens[12] == codec.dump(m.sent)
    ensures ExtFrom(codec, tokens) == Some(m)
  {
    ParsePrinted(m.uuid, LONG_MIN, LONG_MAX);
    ParsePrinted(m.ringTtl, INT_MIN, INT_MAX);
    ParsePrinted(m.ringIdx, INT_MIN, INT_MAX);
    ParsePrinted(TypeNumber(m.msgType), INT_MIN, INT_MAX);
  }

  lemma ExtSurvives(codec: ListCodec, digest: ClrMsg -> int, m: ExtClrMsg)
    requires ValidExt(m) && Carries(codec, m.visited) && Carries(codec, m.sent) && CleanTexts(m.body)
    ensures ParseExt(codec, digest, FormatExt(codec, m)) == Some(m)
  {
    ExtFieldsSeparable(codec, m);
    SplitJoin(ExtFields(codec, m));
    ClrNumbers(m.body, ExtFields(codec, m));
    ExtNumbers(codec, m, ExtFields(codec, m));
  }

  /** The texts of a parsed message are clean. */
  lemma ParsedIsClean(codec: ListCodec, digest: ClrMsg -> int, s: string)
    requires ParseExt(codec, digest, s).Some?
    ensures CleanTexts(ParseExt(codec, digest, s).value.body)
  {
    ParsedFieldsClean(s, 1);
    ParsedFieldsClean(s, 2);
    ParsedFieldsClean(s, 3);
  }

  /** A message with routing fields survives exactly when its three texts are clean. */
  lemma ExtRoundTrip(codec: ListCodec, digest: ClrMsg -> int, m: ExtClrMsg)
    requires ValidExt(m) && Carries(codec, m.visited) && Carries(codec, m.sent)
    ensures ParseExt(codec, digest, FormatExt(codec, m)) == Some(m) <==> CleanTexts(m.body)
  {
    if CleanTexts(m.body) {
      ExtSurvives(codec, digest, m);
    } else if ParseExt(codec, digest, FormatExt(codec, m)).Some? {
      ParsedIsClean(codec, digest, FormatExt(codec, m));
    }
  }

  /** A clear message read by a server is a new one: no ring, nowhere visited, and never the unset uuid. */
  lemma ClrReadAsExt(codec: ListCodec, digest: ClrMsg -> int, m: ClrMsg)
    requires ValidClr(m) && CleanTexts(m)
    ensures ParseExt(codec, digest, FormatClr(m)) == Some(FromClr(m, digest))
    ensures FromClr(m, digest).uuid != UNSET_UUID && !FromClr(m, digest).IsRingTtlSet()
  {
    ClrRoundTrip(m);
  }

  // ----- getMsgLength -----

  /** std::string::find as it returns: npos when nothing is found. */
  function FindPos(s: string, from: nat): nat {
    var p := Find(s, from);
    if p.None? then NPOS else p.value
  }

  function GetMsgLength(formatted: string): nat {
    var msgStart := (FindPos(formatted, 0) + |DELIMITER|) % WORD;
    var msgEnd := FindPos(formatted, msgStart);
    (msgEnd - msgStart) % WORD
  }

  lemma {:induction false} FindShift(prefix: string, s: string, from: nat)
    ensures var p := Find(s, from);
            Find(prefix + s, |prefix| + from) == if p.None? then None else Some(|prefix| + p.value)
    decreases |s| - from
  {
    var whole := prefix + s;
    assert forall i :: 0 <= i ==> (DelimiterAt(whole, |prefix| + i) <==> DelimiterAt(s, i));
    if from + 3 <= |s| && !DelimiterAt(s, from) {
      FindShift(prefix, s, from + 1);
    }
  }

  /** Past the first delimiter, the next one ends the text exactly when the text is clean. */
  lemma NextDelimiter(head: string, text: string, rest: string)
    ensures Find(head + (text + DELIMITER + rest), |head|) == Some(|head| + |text|) <==> Clean(text)
  {
    FindAfterClean(text, rest);
    FindBehind(head, text + DELIMITER + rest);
  }

  lemma FindBehind(head: string, tail: string)
    ensures var p := Find(tail, 0);
            Find(head + tail, |head|) == if p.None? then None else Some(|head| + p.value)
  {
    FindShift(head, tail, 0);
  }

  lemma LengthBetween(formatted: string, start: nat, end: nat)
    requires Find(formatted, 0) == Some(start) && Find(formatted, start + 3) == Some(end) && end < NPOS
    ensures GetMsgLength(formatted) == end - start - 3
  {
    assert (start + 3) % WORD == start + 3;
    assert (end - start - 3) % WORD == end - start - 3;
  }

  /** The length found after a clean tag is that of the text exactly when the text is clean. */
  lemma MsgLength(tag: string, text: string, rest: string)
    requires Clean(tag)
    requires |tag| + |text| + |rest| + 6 < NPOS
    ensures GetMsgLength(tag + DELIMITER + (text + DELIMITER + rest)) == |text| <==> Clean(text)
  {
    var tail := text + DELIMITER + rest;
    var head := tag + DELIMITER;
    FindAfterClean(tag, tail);
    NextDelimiter(head, text, rest);
    var end := Find(head + tail, |head|);
    assert DelimiterAt(head + tail, |head| + |text|);
    assert end.Some? && end.value < NPOS;
    LengthBetween(head + tail, |tag|, end.value);
    assert GetMsgLength(head + tail) == end.value - |head|;
  }

  /** Both formats start with a tag and the text. */
  lemma JoinStart(tokens: seq<string>)
    requires |tokens| >= 3
    ensures Join(tokens) == tokens[0] + DELIMITER + (tokens[1] + DELIMITER + Join(tokens[2..]))
  {
    assert tokens[1..][1..] == tokens[2..];
  }

  /** getMsgLength of a formatted message is the length of its text exactly when the text is clean. */
  lemma FormattedMsgLength(codec: ListCodec, m: ExtClrMsg)
    requires |FormatClr(m.body)| < NPOS && |FormatExt(codec, m)| < NPOS
    ensures GetMsgLength(FormatClr(m.body)) == |m.body.text| <==> Clean(m.body.text)
    ensures GetMsgLength(FormatExt(codec, m)) == |m.body.text| <==> Clean(m.body.text)
  {
    var clr, ext := ClrFields(m.body), ExtFields(codec, m);
    PlainIsClean("clrMsg");
    PlainIsClean("extClrMsg");
    JoinStart(clr);
    JoinStart(ext);
    MsgLength("clrMsg", m.body.text, Join(clr[2..]));
    MsgLength("extClrMsg", m.body.text, Join(ext[2..]));
  }

  // ----- the texts, written out -----

  lemma JoinCons(t: string, rest: seq<string>)
    requires rest != []
    ensures Join([t] + rest) == t + ":::" + Join(rest)
  {
    assert ([t] + rest)[1..] == rest;
  }

  /** The six fields of a clear message behind its tag. */
  function BodyText(m: ClrMsg): string {
    m.text + ":::" + (m.from + ":::" + (m.to + ":::"
      + (ToString(m.time) + ":::" + (ToString(m.nonce) + ":::" + ToString(m.ampIndex)))))
  }

  lemma JoinBody(m: ClrMsg)
    ensures Join([m.text, m.from, m.to, ToString(m.time), ToString(m.nonce), ToString(m.ampIndex)]) == BodyText(m)
  {
    JoinSix(m.text, m.from, m.to, ToString(m.time), ToString(m.nonce), ToString(m.ampIndex));
  }

  lemma {:induction false} JoinTwo(front: seq<string>, back: seq<string>)
    requires front != [] && back != []
    ensures Join(front + back) == Join(front) + ":::" + Join(back)
  {
    if |front| == 1 {
      JoinCons(front[0], back);
    } else {
      JoinTwo(front[1..], back);
      JoinCons(front[0], front[1..]);
      JoinCons(front[0], front[1..] + back);
      assert front == [front[0]] + front[1..] && front + back == [front[0]] + (front[1..] + back);
    }
  }

  /** A clear message as text. */
  lemma ClrText(m: ClrMsg)
    ensures FormatClr(m) == "clrMsg:::" + BodyText(m)
  {
    var fields := [m.text, m.from, m.to, ToString(m.time), ToString(m.nonce), ToString(m.ampIndex)];
    JoinBody(m);
    JoinCons("clrMsg", fields);
    assert ClrFields(m) == ["clrMsg"] + fields;
  }

  /** The six fields that a message with routing fields has in addition. */
  function RoutingText(codec: ListCodec, m: ExtClrMsg): string {
    ToString(m.uuid) + ":::" + (ToString(m.ringTtl) + ":::" + (ToString(m.ringIdx) + ":::"
      + (ToString(TypeNumber(m.msgType)) + ":::" + (codec.dump(m.visited) + ":::" + codec.dump(m.sent)))))
  }

  lemma JoinRouting(codec: ListCodec, m: ExtClrMsg)
    ensures Join([ToString(m.uuid), ToString(m.ringTtl), ToString(m.ringIdx), ToString(TypeNumber(m.msgType)),
                  codec.dump(m.visited), codec.dump(m.sent)]) == RoutingText(codec, m)
  {
    JoinSix(ToString(m.uuid), ToString(m.ringTtl), ToString(m.ringIdx), ToString(TypeNumber(m.msgType)),
            codec.dump(m.visited), codec.dump(m.sent));
  }

  lemma JoinSix(a: string, b: string, c: string, d: string, e: string, f: string)
    ensures Join([a, b, c, d, e, f]) == a + ":::" + (b + ":::" + (c + ":::" + (d + ":::" + (e + ":::" + f))))
  {
    JoinCons(e, [f]);
    JoinCons(d, [e, f]);
    JoinCons(c, [d, e, f]);
    JoinCons(b, [c, d, e, f]);
    JoinCons(a, [b, c, d, e, f]);
    assert [a] + [b, c, d, e, f] == [a, b, c, d, e, f] && [b] + [c, d, e, f] == [b, c, d, e, f];
    assert [c] + [d, e, f] == [c, d, e, f] && [d] + [e, f] == [d, e, f] && [e] + [f] == [e, f];
  }

  lemma SameFields(tag: string, a: string, b: string, c: string, n: seq<string>, v: string, s: string)
    requires |n| == 7
    ensures [tag] + [a, b, c] + n + [v, s] == [tag] + ([a, b, c, n[0], n[1], n[2]] + [n[3], n[4], n[5], n[6], v, s])
  {
  }

  /** A message with routing fields as text. */
  lemma ExtText(codec: ListCodec, m: ExtClrMsg)
    ensures FormatExt(codec, m) == "extClrMsg:::" + (BodyText(m.body) + ":::" + RoutingText(codec, m))
  {
    var body := [m.body.text, m.body.from, m.body.to, ToString(m.body.time), ToString(m.body.nonce), ToString(m.body.ampIndex)];
    var routing := [ToString(m.uuid), ToString(m.ringTtl), ToString(m.ringIdx), ToString(TypeNumber(m.msgType)),
                    codec.dump(m.visited), codec.dump(m.sent)];
    JoinBody(m.body);
    JoinRouting(codec, m);
    JoinTwo(body, routing);
    JoinCons("extClrMsg", body + routing);
    SameFields("extClrMsg", m.body.text, m.body.from, m.body.to, Numbers(m), codec.dump(m.visited), codec.dump(m.sent));
  }

  /** The numbers of a clear message, as texts: each can be read, and the last is cut to eight bits. */
  predicate Numerals(m: ClrMsg, time: string, nonce: string, amp: string) {
    Stol(time) == Some(m.time) && Stoi(nonce) == Some(m.nonce) && Stoi(amp).Some? && m.ampIndex == Int8(Stoi(amp).value)
  }

  /** What is accepted as a clear message: seven fields behind the tag's delimiter, with numbers that can be read. */
  lemma ParsedClrReads(s: string, m: ClrMsg) returns (time: string, nonce: string, amp: string)
    requires ParseClr(s) == Some(m)
    ensures s == "clrMsg" + ":::" + (m.text + ":::" + (m.from + ":::" + (m.to + ":::" + (time + ":::" + (nonce + ":::" + amp)))))
    ensures Numerals(m, time, nonce, amp)
  {
    var t := Split(s);
    time, nonce, amp := t[4], t[5], t[6];
    JoinSplit(s);
    JoinCons(t[0], t[1..]);
    JoinSix(t[1], t[2], t[3], t[4], t[5], t[6]);
    assert t == [t[0]] + t[1..] && t[1..] == [t[1], t[2], t[3], t[4], t[5], t[6]];
  }

  /** Everything of this form is accepted, if the fields but the last can stand before a delimiter and the last holds none. */
  lemma ReadAsClr(m: ClrMsg, time: string, nonce: string, amp: string)
    requires Numerals(m, time, nonce, amp)
    requires CleanTexts(m) && Clean(time) && Clean(nonce) && !HasDelimiter(amp)
    ensures ParseClr("clrMsg" + ":::" + (m.text + ":::" + (m.from + ":::" + (m.to + ":::" + (time + ":::" + (nonce + ":::" + amp))))))
         == Some(m)
  {
    var t := ["clrMsg", m.text, m.from, m.to, time, nonce, amp];
    PlainIsClean("clrMsg");
    SplitJoin(t);
    JoinCons(t[0], t[1..]);
    JoinSix(t[1], t[2], t[3], t[4], t[5], t[6]);
    assert t == [t[0]] + t[1..] && t[1..] == [t[1], t[2], t[3], t[4], t[5], t[6]];
  }

  /** How a server reads a text by its fields; the tag is not looked at. */
  lemma ParseExtMeans(codec: ListCodec, digest: ClrMsg -> int, s: string)
    ensures
      var t, r := Split(s), ParseExt(codec, digest, s);
      && (r.Some? <==>
            && |t| in {7, 13} && Stol(t[4]).Some? && Stoi(t[5]).Some? && Stoi(t[6]).Some?
            && (|t| == 13 ==> Stol(t[7]).Some? && Stoi(t[8]).Some? && Stoi(t[9]).Some? && Stoi(t[10]).Some?
                              && codec.parse(t[11]).Some? && codec.parse(t[12]).Some?))
      && (r.Some? ==>
            var m := r.value;
            && m.body.text == t[1] && m.body.from == t[2] && m.body.to == t[3]
            && Numerals(m.body, t[4], t[5], t[6])
            && if |t| == 7 then
                 && m.uuid == (if digest(m.body) == UNSET_UUID then 1 else digest(m.body))
                 && m.ringTtl == UNSET_RING_TTL && m.ringIdx == 0 && m.msgType == MsgClient && m.visited == [] && m.sent == []
               else
                 && Some(m.uuid) == Stol(t[7]) && Some(m.ringTtl) == Stoi(t[8]) && Some(m.ringIdx) == Stoi(t[9])
                 && Some(TypeNumber(m.msgType)) == Stoi(t[10])
                 && Some(m.visited) == codec.parse(t[11]) && Some(m.sent) == codec.parse(t[12]))
  {
  }
}
