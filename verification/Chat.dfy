/**
 Chat messages: composing MIMI content, decoding it, and the event echoed locally while the message travels.
 A Rust `String` is its UTF-8 octets; hashing, grapheme counting and the content's canonical id are the
 libraries'.
 */
module Chat {
  import opened Wrappers

  type byte = b: int | 0 <= b < 256

  // ----- UTF-8 (section 4 of RFC 3629) -----

  predicate Tail(b: byte) { 0x80 <= b <= 0xBF }

  /** How many octets the character at the head of `s` takes, or 0 if there is no well-formed one. */
  function HeadLength(s: seq<byte>): (n: nat)
    ensures n <= |s| && n <= 4
  {
    if s == [] then 0
    else if s[0] < 0x80 then 1
    else if |s| >= 2 && 0xC2 <= s[0] <= 0xDF && Tail(s[1]) then 2
    else if |s| >= 3 && 0xE0 <= s[0] <= 0xEF && Tail(s[1]) && Tail(s[2])
            && (s[0] == 0xE0 ==> s[1] >= 0xA0) && (s[0] == 0xED ==> s[1] < 0xA0) then 3
    else if |s| >= 4 && 0xF0 <= s[0] <= 0xF4 && Tail(s[1]) && Tail(s[2]) && Tail(s[3])
            && (s[0] == 0xF0 ==> s[1] >= 0x90) && (s[0] == 0xF4 ==> s[1] < 0x90) then 4
    else 0
  }

  predicate ValidUtf8(s: seq<byte>)
    decreases |s|
  {
    s == [] || (HeadLength(s) > 0 && ValidUtf8(s[HeadLength(s)..]))
  }

  type Text = s: seq<byte> | ValidUtf8(s)

  type MessageId = b: seq<byte> | |b| == 32 witness seq(32, _ => 0)

  /** A Unicode scalar value: a code point that is not a surrogate. */
  type Scalar = c: int | 0 <= c < 0x11_0000 && !(0xD800 <= c < 0xE000)

  function Encode(c: Scalar): (s: seq<byte>)
    ensures 1 <= |s| <= 4
  {
    if c < 0x80 then [c]
    else if c < 0x800 then [0xC0 + c / 0x40, 0x80 + c % 0x40]
    else if c < 0x1_0000 then [0xE0 + c / 0x1000, 0x80 + c / 0x40 % 0x40, 0x80 + c % 0x40]
    else [0xF0 + c / 0x4_0000, 0x80 + c / 0x1000 % 0x40, 0x80 + c / 0x40 % 0x40, 0x80 + c % 0x40]
  }

  function EncodeAll(text: seq<Scalar>): seq<byte> {
    if text == [] then [] else Encode(text[0]) + EncodeAll(text[1..])
  }

  /** The scalar value of the character at the head of `s`. */
  function HeadScalar(s: seq<byte>): int
    requires HeadLength(s) > 0
  {
    var n := HeadLength(s);
    if n == 1 then s[0]
    else if n == 2 then Digits(s[0] - 0xC0, s[1] - 0x80)
    else if n == 3 then Digits(Digits(s[0] - 0xE0, s[1] - 0x80), s[2] - 0x80)
    else Digits(Digits(Digits(s[0] - 0xF0, s[1] - 0x80), s[2] - 0x80), s[3] - 0x80)
  }

  /** A number by its last digit in base 64 and the rest. */
  function Digits(high: int, low: int): int { high * 0x40 + low }

  /** The encoding of every scalar value is accepted, whatever follows it. */
  lemma EncodingAccepted(c: Scalar, rest: seq<byte>)
    ensures HeadLength(Encode(c) + rest) == |Encode(c)|
    ensures HeadScalar(Encode(c) + rest) == c
  {
    var s := Encode(c) + rest;
    SplitScalar(c);
    assert forall i | 0 <= i < |Encode(c)| :: s[i] == Encode(c)[i];
  }

  /** A number by its digits in base 64. */
  lemma SplitScalar(c: nat)
    ensures c / 0x1000 == c / 0x40 / 0x40 && c / 0x4_0000 == c / 0x1000 / 0x40
    ensures c == c / 0x40 * 0x40 + c % 0x40
  {
  }

  /** And nothing else is: what is accepted is the encoding of a scalar value. */
  lemma HeadIsEncoding(s: seq<byte>)
    requires HeadLength(s) > 0
    ensures 0 <= HeadScalar(s) < 0x11_0000 && !(0xD800 <= HeadScalar(s) < 0xE000)
    ensures s == Encode(HeadScalar(s)) + s[HeadLength(s)..]
  {
    if HeadLength(s) == 2 {
      LastDigit(s[0] - 0xC0, s[1] - 0x80);
    } else if HeadLength(s) == 3 {
      LastDigit(s[0] - 0xE0, s[1] - 0x80);
      LastDigit(Digits(s[0] - 0xE0, s[1] - 0x80), s[2] - 0x80);
    } else if HeadLength(s) == 4 {
      LastDigit(s[0] - 0xF0, s[1] - 0x80);
      LastDigit(Digits(s[0] - 0xF0, s[1] - 0x80), s[2] - 0x80);
      LastDigit(Digits(Digits(s[0] - 0xF0, s[1] - 0x80), s[2] - 0x80), s[3] - 0x80);
    }
    SplitScalar(HeadScalar(s));
  }

  lemma LastDigit(high: int, low: int)
    requires 0 <= low < 0x40
    ensures Digits(high, low) / 0x40 == high && Digits(high, low) % 0x40 == low
  {
  }

  /** An octet sequence is UTF-8 exactly when it encodes a text. */
  lemma {:induction false} EncodedIsUtf8(text: seq<Scalar>)
    ensures ValidUtf8(EncodeAll(text))
  {
    if text != [] {
      EncodingAccepted(text[0], EncodeAll(text[1..]));
      EncodedIsUtf8(text[1..]);
      assert EncodeAll(text)[|Encode(text[0])|..] == EncodeAll(text[1..]);
    }
  }

  lemma {:induction false} Utf8IsEncoded(s: seq<byte>) returns (text: seq<Scalar>)
    requires ValidUtf8(s)
    ensures s == EncodeAll(text)
    decreases |s|
  {
    if s == [] {
      text := [];
    } else {
      HeadIsEncoding(s);
      var rest := Utf8IsEncoded(s[HeadLength(s)..]);
      text := [HeadScalar(s)] + rest;
      assert text[1..] == rest;
    }
  }

  // ----- Requests, events, content -----

  datatype ReplyTarget = ReplyTarget(messageId: MessageId, topicId: Option<MessageId>)

  datatype Request =
    | Compose(text: Text, replyTo: Option<ReplyTarget>)
    | React(target: MessageId, emoji: Text)
    | Unreact(target: MessageId, replaced: MessageId)

  datatype Protocol = Legacy | MimiV1

  datatype Event =
    | Message(id: MessageId, sender: Text, receivedAt: nat, text: Text, inReplyTo: Option<MessageId>,
        topicId: Option<MessageId>, protocol: Protocol, legacyType: Option<Text>)
    | Reaction(id: MessageId, sender: Text, receivedAt: nat, target: MessageId, emoji: Option<Text>,
        replaced: Option<MessageId>, protocol: Protocol)
    | Unsupported(id: MessageId, sender: Text, receivedAt: nat, protocol: Protocol)

  datatype Error = InvalidEmoji | InvalidMimiContent

  datatype Disposition = Render | ReactionPart | OtherDisposition(code: nat)

  datatype Part = NullPart | SinglePart(contentType: string, content: seq<byte>) | OtherPart(kind: nat)

  /** The CBOR map of the sender's timestamp: pairs of a scale and a number. */
  type Timestamp = seq<(int, nat)>

  datatype Content = Content(salt: seq<byte>, timestamp: Timestamp, inReplyTo: Option<MessageId>,
    replaced: Option<MessageId>, topicId: Option<seq<byte>>, disposition: Disposition, part: Part)

  /** What comes from outside: SHA-256, grapheme counting, and the id of a content, which may fail. */
  datatype Library = Library(
    sha256: seq<byte> -> MessageId,
    graphemes: Text -> nat,
    contentId: (Text, Text, Content) -> Option<MessageId>)

  // ----- Composing -----

  function SenderTimestamp(ms: nat): Timestamp {
    [(1, ms / 1000)] + if ms % 1000 > 0 then [(-3, ms % 1000)] else []
  }

  /** A timestamp's milliseconds: scale 1 counts seconds, scale -3 counts milliseconds. */
  function Milliseconds(t: Timestamp): nat {
    if t == [] then 0
    else (if t[0].0 == 1 then 1000 * t[0].1 else if t[0].0 == -3 then t[0].1 else 0) + Milliseconds(t[1..])
  }

  lemma {:induction false} TimestampRoundTrip(ms: nat)
    ensures Milliseconds(SenderTimestamp(ms)) == ms
  {
    if ms % 1000 > 0 {
      var t, rest: Timestamp := SenderTimestamp(ms), [(-3, ms % 1000)];
      assert t[1..] == rest;
      assert Milliseconds(rest) == ms % 1000;
    }
  }

  function BigEndian(n: nat, width: nat): seq<byte> {
    if width == 0 then [] else BigEndian(n / 256, width - 1) + [n % 256]
  }

  /** What is hashed into the salt. */
  function SaltInput(sender: Text, room: Text, ms: nat, request: Request): seq<byte> {
    sender + room + BigEndian(ms, 8)
    + match request
      case Compose(text, replyTo) =>
        [0] + text
        + (if replyTo.None? then []
           else replyTo.value.messageId + if replyTo.value.topicId.Some? then replyTo.value.topicId.value else [])
      case React(target, emoji) => [1] + target + emoji
      case Unreact(target, replaced) => [2] + target + replaced
  }

  /** What an input adds to the sender, the room and the time: its kind, then its fields. */
  lemma SaltSuffix(sender: Text, room: Text, ms: nat, request: Request)
    ensures var front, input := sender + room + BigEndian(ms, 8), SaltInput(sender, room, ms, request);
            && |input| > |front| && input[..|front|] == front
            && input[|front|] == (match request case Compose(_, _) => 0 case React(_, _) => 1 case Unreact(_, _) => 2)
            && input[|front| + 1..] ==
                 match request
                 case Compose(text, None) => text
                 case Compose(text, Some(reply)) =>
                   text + reply.messageId + (if reply.topicId.Some? then reply.topicId.value else [])
                 case React(target, emoji) => target + emoji
                 case Unreact(target, replaced) => target + replaced
  {
    var front, input := sender + room + BigEndian(ms, 8), SaltInput(sender, room, ms, request);
    assert input == front + input[|front|..];
  }

  /** From one sender, in one room and at one time, no two reactions or removals are hashed alike. */
  lemma ReactionsHashedApart(sender: Text, room: Text, ms: nat, r: Request, s: Request)
    requires !r.Compose? && SaltInput(sender, room, ms, r) == SaltInput(sender, room, ms, s)
    ensures r == s
  {
    SaltSuffix(sender, room, ms, r);
    SaltSuffix(sender, room, ms, s);
    var suffix := SaltInput(sender, room, ms, r)[|sender + room + BigEndian(ms, 8)| + 1..];
    if r.React? {
      assert suffix[..32] == r.target == s.target && suffix[32..] == r.emoji == s.emoji;
    } else {
      assert suffix[..32] == r.target == s.target && suffix[32..] == r.replaced == s.replaced;
    }
  }

  function Salt(library: Library, sender: Text, room: Text, ms: nat, request: Request): seq<byte> {
    library.sha256(SaltInput(sender, room, ms, request))[..16]
  }

  /** U+200D occurs in the text. */
  predicate HasJoiner(text: Text) {
    exists i | 0 <= i <= |text| - 3 :: JoinerAt(text, i)
  }

  predicate JoinerAt(text: seq<byte>, i: int) {
    0 <= i <= |text| - 3 && text[i] == 0xE2 && text[i + 1] == 0x80 && text[i + 2] == 0x8D
  }

  /** The three octets are found in a text exactly when it holds the character. */
  lemma {:induction false} JoinerIff(text: seq<Scalar>)
    ensures ValidUtf8(EncodeAll(text)) && (HasJoiner(EncodeAll(text)) <==> 0x200D in text)
  {
    EncodedIsUtf8(text);
    if text != [] {
      var tail := EncodeAll(text[1..]);
      JoinerIff(text[1..]);
      JoinerInHeadOrTail(text[0], tail);
    }
  }

  /** An occurrence is the first character or lies beyond it: no octet within a character can begin one. */
  lemma JoinerInHeadOrTail(c: Scalar, tail: Text)
    requires ValidUtf8(Encode(c) + tail)
    ensures HasJoiner(Encode(c) + tail) <==> c == 0x200D || HasJoiner(tail)
  {
    var all := Encode(c) + tail;
    if HasJoiner(all) {
      var i :| 0 <= i <= |all| - 3 && JoinerAt(all, i);
      JoinerStarts(c, tail, i);
    } else {
      assert !JoinerAt(all, 0);
    }
    if HasJoiner(tail) {
      JoinerBeyond(Encode(c), tail);
    }
  }

  lemma JoinerStarts(c: Scalar, tail: Text, i: int)
    requires JoinerAt(Encode(c) + tail, i)
    ensures c == 0x200D || HasJoiner(tail)
  {
    var n := |Encode(c)|;
    EncodingAccepted(c, tail);
    if i >= n {
      assert JoinerAt(tail, i - n);
    } else {
      OnlyFirstLeads(c, i);
    }
  }

  lemma OnlyFirstLeads(c: Scalar, i: nat)
    requires i < |Encode(c)|
    ensures i == 0 || Tail(Encode(c)[i])
  {
  }

  lemma JoinerBeyond(head: seq<byte>, tail: Text)
    requires ValidUtf8(head + tail) && HasJoiner(tail)
    ensures HasJoiner(head + tail)
  {
    var i :| 0 <= i <= |tail| - 3 && JoinerAt(tail, i);
    var all := head + tail;
    assert all[|head| + i..] == tail[i..];
    assert JoinerAt(all, |head| + i);
  }

  predicate ValidEmoji(library: Library, emoji: Text) {
    library.graphemes(emoji) == 1 && !HasJoiner(emoji)
  }

  function ContentOf(library: Library, request: Request, sender: Text, room: Text, ms: nat): Content {
    var salt, timestamp := Salt(library, sender, room, ms, request), SenderTimestamp(ms);
    match request
    case Compose(text, None) =>
      Content(salt, timestamp, None, None, Some([]), Render, SinglePart("text/markdown", text))
    case Compose(text, Some(reply)) =>
      var topic := if reply.topicId.Some? then reply.topicId.value else reply.messageId;
      Content(salt, timestamp, Some(reply.messageId), None, Some(topic), Render, SinglePart("text/markdown", text))
    case React(target, emoji) =>
      Content(salt, timestamp, Some(target), None, Some([]), ReactionPart, SinglePart("text/plain", emoji))
    case Unreact(target, replaced) =>
      Content(salt, timestamp, Some(target), Some(replaced), Some([]), ReactionPart, NullPart)
  }

  function BuildMimiMessage(library: Library, request: Request, sender: Text, room: Text, ms: nat)
    : (built: Result<(Content, MessageId), Error>)
    ensures built == Err(InvalidEmoji) <==> request.React? && !ValidEmoji(library, request.emoji)
    ensures built.Ok? ==> Milliseconds(built.value.0.timestamp) == ms
    ensures built.Ok? ==> library.contentId(sender, room, built.value.0) == Some(built.value.1)
    ensures built.Ok? ==> built.value.0.salt == library.sha256(SaltInput(sender, room, ms, request))[..16]
  {
    TimestampRoundTrip(ms);
    if request.React? && !ValidEmoji(library, request.emoji) then Err(InvalidEmoji)
    else
      var content := ContentOf(library, request, sender, room, ms);
      match library.contentId(sender, room, content)
      case Some(id) => Ok((content, id))
      case None => Err(InvalidMimiContent)
  }

  /**
   What a request looks like on the wire: text travels as a rendered part, an emoji as a reaction part, and a removal as
   a reaction without one; each names the message it is about, and only a removal replaces anything.
   */
  lemma OnTheWire(library: Library, request: Request, sender: Text, room: Text, ms: nat)
    requires BuildMimiMessage(library, request, sender, room, ms).Ok?
    ensures var content := BuildMimiMessage(library, request, sender, room, ms).value.0;
            match request
            case Compose(text, replyTo) =>
              && content.part == SinglePart("text/markdown", text) && content.disposition == Render
              && content.replaced.None? && (content.inReplyTo.Some? <==> replyTo.Some?)
              && (replyTo.Some? ==> content.inReplyTo == Some(replyTo.value.messageId))
              && (replyTo.None? ==> content.topicId == Some([]))
            case React(target, emoji) =>
              && content.part == SinglePart("text/plain", emoji) && content.disposition == ReactionPart
              && content.inReplyTo == Some(target) && content.replaced.None? && content.topicId == Some([])
            case Unreact(target, replaced) =>
              && content.part == NullPart && content.disposition == ReactionPart
              && content.inReplyTo == Some(target) && content.replaced == Some(replaced)
              && content.topicId == Some([])
  {
  }

  // ----- Decoding -----

  function OptionalMessageId(b: seq<byte>): (id: Option<MessageId>)
    ensures id.Some? <==> |b| == 32
    ensures id.Some? ==> id.value == b
  {
    if b == [] then None else if |b| != 32 then None else Some(b)
  }

  function Utf8Text(content: seq<byte>): Result<Text, Error> {
    if ValidUtf8(content) then Ok(content) else Err(InvalidMimiContent)
  }

  function DecodeRenderMessage(content: Content, id: MessageId, sender: Text, receivedAt: nat): Result<Event, Error>
    requires content.part.SinglePart?
  {
    if content.part.contentType != "text/markdown" then Ok(Unsupported(id, sender, receivedAt, MimiV1))
    else
      match Utf8Text(content.part.content)
      case Err(error) => Err(error)
      case Ok(text) =>
        var topicId := if content.topicId.Some? then OptionalMessageId(content.topicId.value) else None;
        Ok(Message(id, sender, receivedAt, text, content.inReplyTo, topicId, MimiV1, None))
  }

  function DecodeReactionAdd(content: Content, id: MessageId, sender: Text, receivedAt: nat): Result<Event, Error>
    requires content.part.SinglePart?
  {
    if content.part.contentType != "text/plain" || content.inReplyTo.None? then
      Ok(Unsupported(id, sender, receivedAt, MimiV1))
    else
      match Utf8Text(content.part.content)
      case Err(error) => Err(error)
      case Ok(emoji) => Ok(Reaction(id, sender, receivedAt, content.inReplyTo.value, Some(emoji), None, MimiV1))
  }

  function DecodeReactionRemove(content: Content, id: MessageId, sender: Text, receivedAt: nat): Result<Event, Error> {
    if content.inReplyTo.None? || content.replaced.None? then Ok(Unsupported(id, sender, receivedAt, MimiV1))
    else
      Ok(Reaction(id, sender, receivedAt, content.inReplyTo.value, None, Some(content.replaced.value), MimiV1))
  }

  /** A part of a type the receiver understands, where it expects it. */
  predicate Shown(content: Content)
    requires content.part.SinglePart?
  {
    || (content.disposition == Render && content.part.contentType == "text/markdown")
    || (content.disposition == ReactionPart && content.part.contentType == "text/plain" && content.inReplyTo.Some?)
  }

  /** Decoding fails only on text that is not UTF-8 in a part that would be shown. */
  function DecodeMimiContent(content: Content, id: MessageId, sender: Text, receivedAt: nat)
    : (decoded: Result<Event, Error>)
    ensures decoded.Err? <==>
      content.part.SinglePart? && !ValidUtf8(content.part.content) && Shown(content)
    ensures decoded.Ok? ==> decoded.value.id == id && decoded.value.sender == sender
    ensures decoded.Ok? ==> decoded.value.receivedAt == receivedAt && decoded.value.protocol == MimiV1
  {
    match (content.disposition, content.part)
    case (Render, SinglePart(_, _)) => DecodeRenderMessage(content, id, sender, receivedAt)
    case (ReactionPart, SinglePart(_, _)) => DecodeReactionAdd(content, id, sender, receivedAt)
    case (ReactionPart, NullPart) => DecodeReactionRemove(content, id, sender, receivedAt)
    case _ => Ok(Unsupported(id, sender, receivedAt, MimiV1))
  }

  // ----- The local echo -----

  function ComposeLocalEcho(request: Request, id: MessageId, sender: Text, receivedAt: nat): Event {
    match request
    case Compose(text, replyTo) =>
      var inReplyTo := if replyTo.Some? then Some(replyTo.value.messageId) else None;
      var topicId :=
        if replyTo.None? then None
        else if replyTo.value.topicId.Some? then replyTo.value.topicId
        else Some(replyTo.value.messageId);
      Message(id, sender, receivedAt, text, inReplyTo, topicId, MimiV1, None)
    case React(target, emoji) => Reaction(id, sender, receivedAt, target, Some(emoji), None, MimiV1)
    case Unreact(target, replaced) => Reaction(id, sender, receivedAt, target, None, Some(replaced), MimiV1)
  }

  /**
   Whatever a request builds, every receiver decodes it to the event the sender echoed, given the same id, sender and
   time of receipt.
   */
  lemma EchoIsWhatReceiversDecode(library: Library, request: Request, senderUri: Text, room: Text, ms: nat,
      id: MessageId, sender: Text, receivedAt: nat)
    requires BuildMimiMessage(library, request, senderUri, room, ms).Ok?
    ensures DecodeMimiContent(BuildMimiMessage(library, request, senderUri, room, ms).value.0, id, sender, receivedAt)
         == Ok(ComposeLocalEcho(request, id, sender, receivedAt))
  {
  }

  /** The request that a shown event stands for; a topic equal to the message replied to was the default. */
  function RequestOf(event: Event): Option<Request> {
    match event
    case Message(_, _, _, text, None, _, _, _) => Some(Compose(text, None))
    case Message(_, _, _, text, Some(target), topicId, _, _) =>
      Some(Compose(text, Some(ReplyTarget(target, if topicId == Some(target) then None else topicId))))
    case Reaction(_, _, _, target, Some(emoji), _, _) => Some(React(target, emoji))
    case Reaction(_, _, _, target, None, Some(replaced), _) => Some(Unreact(target, replaced))
    case _ => None
  }

  /** A reply that names the message replied to as its topic says no more than one without a topic. */
  function Normal(request: Request): Request {
    if request.Compose? && request.replyTo.Some?
       && request.replyTo.value.topicId == Some(request.replyTo.value.messageId)
    then request.(replyTo := Some(request.replyTo.value.(topicId := None)))
    else request
  }

  /**
   The content determines the request: a receiver recovers it, a redundant topic aside, so two requests build contents
   that decode alike exactly when they are the same request.
   */
  lemma {:induction false} RequestIsRecovered(library: Library, r: Request, s: Request, senderUri: Text, room: Text,
      ms: nat, id: MessageId, sender: Text, receivedAt: nat)
    requires BuildMimiMessage(library, r, senderUri, room, ms).Ok?
    requires BuildMimiMessage(library, s, senderUri, room, ms).Ok?
    ensures var decodedR := DecodeMimiContent(BuildMimiMessage(library, r, senderUri, room, ms).value.0,
                                              id, sender, receivedAt);
            var decodedS := DecodeMimiContent(BuildMimiMessage(library, s, senderUri, room, ms).value.0,
                                              id, sender, receivedAt);
      decodedR.Ok? && RequestOf(decodedR.value) == Some(Normal(r)) && (decodedR == decodedS <==> Normal(r) == Normal(s))
  {
    EchoIsWhatReceiversDecode(library, r, senderUri, room, ms, id, sender, receivedAt);
    EchoIsWhatReceiversDecode(library, s, senderUri, room, ms, id, sender, receivedAt);
    RequestOfEcho(r, id, sender, receivedAt);
    RequestOfEcho(s, id, sender, receivedAt);
    EchoOfNormal(r, id, sender, receivedAt);
    EchoOfNormal(s, id, sender, receivedAt);
  }

  lemma RequestOfEcho(r: Request, id: MessageId, sender: Text, receivedAt: nat)
    ensures RequestOf(ComposeLocalEcho(r, id, sender, receivedAt)) == Some(Normal(r))
  {
  }

  lemma EchoOfNormal(r: Request, id: MessageId, sender: Text, receivedAt: nat)
    ensures ComposeLocalEcho(Normal(r), id, sender, receivedAt) == ComposeLocalEcho(r, id, sender, receivedAt)
  {
  }
}
