/**
 Application messages: their CBOR form, limits, and the refusal of ICE candidates that would expose an address.
 */
module App {
  import opened Basics
  import Utf8
  import opened CborHead
  import opened Cbor
  import opened Ice

  const PROTOCOL_VERSION: U64 := 1
  const TEXT_MAX_BYTES: nat := 8192
  const EMOJI_MAX_BYTES: nat := 32
  const GROUP_NAME_MAX_BYTES: nat := 128

  type Key32 = s: seq<Byte> | |s| == 32 witness seq(32, _ => 0)
  type CallId = s: seq<Byte> | |s| == 16 witness seq(16, _ => 0)
  type Signature = s: seq<Byte> | |s| == 64 witness seq(64, _ => 0)

  datatype Intro = Intro(
    identityId: Key32, identityPk: Key32, revocationPk: Key32, destHpke: Key32, bindingSeq: U64,
    sessionKey: seq<Byte>, recipient: Key32, signature: Signature)

  datatype Header = Header(convSeq: U64, sentAt: U64, replyTo: Option<U64>)

  datatype FileMeta = FileMeta(name: string, mime: string, size: U64)

  datatype Body =
    | TextBody(text: string)
    | Attachment(encFile: seq<Byte>, meta: FileMeta, fetchToken: Option<Key32>)
    | Reaction(target: U64, emoji: string)
    | Delete(target: U64)
    | ProtocolAck(upTo: U64)
    | ReadUpTo(upTo: U64)
    | Capability(contactCapability: Key32, intro: Option<Intro>)
    | BindingGossip(identityId: Key32, seqNo: U64, serverId: Key32)
    | Disappear(seconds: U64)
    | GroupName(groupId: Key32, name: string)
    | CallInvite(callId: CallId, sdp: string, dtlsFp: string, ice: seq<string>, expiresAt: U64)
    | CallRinging(callId: CallId)
    | CallAnswer(callId: CallId, sdp: string, dtlsFp: string, ice: seq<string>)
    | CallIce(callId: CallId, ice: seq<string>)
    | CallReject(callId: CallId)
    | CallCancel(callId: CallId)
    | CallEnd(callId: CallId)
    | Unknown(msgType: string)

  datatype Message = Message(header: Header, body: Body)

  datatype AppError =
    | UnknownType | TextTooLong | EmojiTooLong | DirectIce | Missing | WrongType | WrongLength | NotMap | Version
    | BadIntro | BadCbor(error: CborError)

  type Reply<T> = Result<T, AppError>

  function TypeName(body: Body): string {
    match body
    case TextBody(_) => "text"
    case Attachment(_, _, _) => "attachment"
    case Reaction(_, _) => "reaction"
    case Delete(_) => "delete"
    case ProtocolAck(_) => "protocol_ack"
    case ReadUpTo(_) => "read"
    case Capability(_, _) => "capability"
    case BindingGossip(_, _, _) => "binding_gossip"
    case Disappear(_) => "disappear"
    case GroupName(_, _) => "group_name"
    case CallInvite(_, _, _, _, _) => "call_invite"
    case CallRinging(_) => "call_ringing"
    case CallAnswer(_, _, _, _) => "call_answer"
    case CallIce(_, _) => "call_ice"
    case CallReject(_) => "call_reject"
    case CallCancel(_) => "call_cancel"
    case CallEnd(_) => "call_end"
    case Unknown(t) => t
  }

  // ------------------------------------------------------------------------ writing

  function Utf8Len(s: string): nat {
    |Utf8.Encode(s)|
  }

  function Validate(body: Body): Reply<()> {
    match body
    case TextBody(text) => if Utf8Len(text) > TEXT_MAX_BYTES then Err(TextTooLong) else Ok(())
    case GroupName(_, name) => if Utf8Len(name) > GROUP_NAME_MAX_BYTES then Err(TextTooLong) else Ok(())
    case Reaction(_, emoji) => if Utf8Len(emoji) > EMOJI_MAX_BYTES then Err(EmojiTooLong) else Ok(())
    case CallInvite(_, _, _, ice, _) => if NoDirect(ice) then Ok(()) else Err(DirectIce)
    case CallAnswer(_, _, _, ice) => if NoDirect(ice) then Ok(()) else Err(DirectIce)
    case CallIce(_, ice) => if NoDirect(ice) then Ok(()) else Err(DirectIce)
    case _ => Ok(())
  }

  function IceValue(ice: seq<string>): Value {
    Array(seq(|ice|, i requires 0 <= i < |ice| => Text(ice[i])))
  }

  function MetaValue(meta: FileMeta): Value {
    Map([Pair(0, Text(meta.name)), Pair(1, Text(meta.mime)), Pair(2, Uint(meta.size))])
  }

  function IntroFields(intro: Intro): seq<Pair> {
    [Pair(6, Bytes(intro.identityId)), Pair(7, Bytes(intro.identityPk)), Pair(8, Bytes(intro.revocationPk)),
     Pair(9, Bytes(intro.destHpke)), Pair(10, Uint(intro.bindingSeq)), Pair(11, Bytes(intro.sessionKey)),
     Pair(12, Bytes(intro.recipient)), Pair(13, Bytes(intro.signature))]
  }

  function ExtraFields(body: Body): seq<Pair> {
    match body
    case TextBody(text) => [Pair(5, Text(text))]
    case Attachment(file, meta, token) =>
      if token.Some? then [Pair(5, Bytes(file)), Pair(6, MetaValue(meta)), Pair(7, Bytes(token.value))]
      else [Pair(5, Bytes(file)), Pair(6, MetaValue(meta))]
    case Reaction(target, emoji) => [Pair(5, Uint(target)), Pair(6, Text(emoji))]
    case Delete(target) => [Pair(5, Uint(target))]
    case ProtocolAck(upTo) => [Pair(5, Uint(upTo))]
    case ReadUpTo(upTo) => [Pair(5, Uint(upTo))]
    case Capability(cap, intro) =>
      if intro.Some? then [Pair(5, Bytes(cap))] + IntroFields(intro.value) else [Pair(5, Bytes(cap))]
    case BindingGossip(id, s, server) => [Pair(5, Bytes(id)), Pair(6, Uint(s)), Pair(7, Bytes(server))]
    case Disappear(seconds) => [Pair(5, Uint(seconds))]
    case GroupName(group, name) => [Pair(5, Bytes(group)), Pair(6, Text(name))]
    case CallInvite(call, sdp, fp, ice, expires) =>
      [Pair(5, Bytes(call)), Pair(6, Text(sdp)), Pair(7, Text(fp)), Pair(8, IceValue(ice)), Pair(9, Uint(expires))]
    case CallRinging(call) => [Pair(5, Bytes(call))]
    case CallAnswer(call, sdp, fp, ice) =>
      [Pair(5, Bytes(call)), Pair(6, Text(sdp)), Pair(7, Text(fp)), Pair(8, IceValue(ice))]
    case CallIce(call, ice) => [Pair(5, Bytes(call)), Pair(6, IceValue(ice))]
    case CallReject(call) => [Pair(5, Bytes(call))]
    case CallCancel(call) => [Pair(5, Bytes(call))]
    case CallEnd(call) => [Pair(5, Bytes(call))]
    case Unknown(_) => []
  }

  function HeadFields(msg: Message): seq<Pair> {
    var h := msg.header;
    [Pair(0, Uint(PROTOCOL_VERSION)), Pair(1, Text(TypeName(msg.body))), Pair(2, Uint(h.convSeq)), Pair(3, Uint(h.sentAt))]
    + if h.replyTo.Some? then [Pair(4, Uint(h.replyTo.value))] else []
  }

  function Fields(msg: Message): seq<Pair> {
    HeadFields(msg) + ExtraFields(msg.body)
  }

  function EncodeMessage(msg: Message): Reply<seq<Byte>>
    requires Sized(Map(Fields(msg)))
  {
    if msg.body.Unknown? then Err(UnknownType)
    else
      var _ :- Validate(msg.body);
      Ok(Encode(Map(Fields(msg))))
  }

  // ------------------------------------------------------------------------ reading

  /** The first pair with a key. */
  function MapGet(m: seq<Pair>, k: U64): Option<Value> {
    if m == [] then None else if m[0].key == k then Some(m[0].val) else MapGet(m[1..], k)
  }

  function GetUint(m: seq<Pair>, k: U64): Reply<U64> {
    match MapGet(m, k)
    case None => Err(Missing)
    case Some(v) => if v.Uint? then Ok(v.n) else Err(WrongType)
  }

  function GetText(m: seq<Pair>, k: U64): Reply<string> {
    match MapGet(m, k)
    case None => Err(Missing)
    case Some(v) => if v.Text? then Ok(v.s) else Err(WrongType)
  }

  function GetBytes(m: seq<Pair>, k: U64): Reply<seq<Byte>> {
    match MapGet(m, k)
    case None => Err(Missing)
    case Some(v) => if v.Bytes? then Ok(v.b) else Err(WrongType)
  }

  function GetKey(m: seq<Pair>, k: U64): Reply<Key32> {
    var b :- GetBytes(m, k);
    if |b| == 32 then Ok(b) else Err(WrongLength)
  }

  function GetCall(m: seq<Pair>, k: U64): Reply<CallId> {
    var b :- GetBytes(m, k);
    if |b| == 16 then Ok(b) else Err(WrongLength)
  }

  function GetSignature(m: seq<Pair>, k: U64): Reply<Signature> {
    var b :- GetBytes(m, k);
    if |b| == 64 then Ok(b) else Err(WrongLength)
  }

  function GetMeta(m: seq<Pair>, k: U64): Reply<FileMeta> {
    match MapGet(m, k)
    case None => Err(Missing)
    case Some(v) =>
      if !v.Map? then Err(WrongType)
      else
        var name :- GetText(v.pairs, 0);
        var mime :- GetText(v.pairs, 1);
        var size :- GetUint(v.pairs, 2);
        Ok(FileMeta(name, mime, size))
  }

  function Texts(items: seq<Value>): Reply<seq<string>> {
    if items == [] then Ok([])
    else if !items[0].Text? then Err(WrongType)
    else
      var more :- Texts(items[1..]);
      Ok([items[0].s] + more)
  }

  function GetIce(m: seq<Pair>, k: U64): Reply<seq<string>> {
    match MapGet(m, k)
    case None => Err(Missing)
    case Some(v) => if v.Array? then Texts(v.items) else Err(WrongType)
  }

  /** Unsigned introductions, from before fields 11 to 13 existed, are refused as such. */
  function GetIntro(m: seq<Pair>): Reply<Intro> {
    var id :- GetKey(m, 6);
    var pk :- GetKey(m, 7);
    var revocation :- GetKey(m, 8);
    var hpke :- GetKey(m, 9);
    var binding :- GetUint(m, 10);
    if MapGet(m, 11).None? then Err(BadIntro)
    else
      var session :- GetBytes(m, 11);
      if MapGet(m, 12).None? then Err(BadIntro)
      else
        var recipient :- GetKey(m, 12);
        if MapGet(m, 13).None? then Err(BadIntro)
        else
          var signature :- GetSignature(m, 13);
          Ok(Intro(id, pk, revocation, hpke, binding, session, recipient, signature))
  }

  function ParsePlain(t: string, m: seq<Pair>): Reply<Body> {
    if t == "text" then var text :- GetText(m, 5); Ok(TextBody(text))
    else if t == "attachment" then
      var file :- GetBytes(m, 5);
      var meta :- GetMeta(m, 6);
      if MapGet(m, 7).None? then Ok(Attachment(file, meta, None))
      else var token :- GetKey(m, 7); Ok(Attachment(file, meta, Some(token)))
    else if t == "reaction" then
      var target :- GetUint(m, 5);
      var emoji :- GetText(m, 6);
      Ok(Reaction(target, emoji))
    else if t == "delete" then var target :- GetUint(m, 5); Ok(Delete(target))
    else if t == "protocol_ack" then var upTo :- GetUint(m, 5); Ok(ProtocolAck(upTo))
    else if t == "read" then var upTo :- GetUint(m, 5); Ok(ReadUpTo(upTo))
    else if t == "capability" then
      var cap :- GetKey(m, 5);
      if MapGet(m, 6).None? then Ok(Capability(cap, None))
      else var intro :- GetIntro(m); Ok(Capability(cap, Some(intro)))
    else if t == "binding_gossip" then
      var id :- GetKey(m, 5);
      var s :- GetUint(m, 6);
      var server :- GetKey(m, 7);
      Ok(BindingGossip(id, s, server))
    else if t == "disappear" then var seconds :- GetUint(m, 5); Ok(Disappear(seconds))
    else if t == "group_name" then
      var group :- GetKey(m, 5);
      var name :- GetText(m, 6);
      Ok(GroupName(group, name))
    else Ok(Unknown(t))
  }

  function ParseInvite(m: seq<Pair>): Reply<Body> {
    var call :- GetCall(m, 5);
    var sdp :- GetText(m, 6);
    var fp :- GetText(m, 7);
    var ice :- GetIce(m, 8);
    var expires :- GetUint(m, 9);
    Ok(CallInvite(call, sdp, fp, ice, expires))
  }

  function ParseAnswer(m: seq<Pair>): Reply<Body> {
    var call :- GetCall(m, 5);
    var sdp :- GetText(m, 6);
    var fp :- GetText(m, 7);
    var ice :- GetIce(m, 8);
    Ok(CallAnswer(call, sdp, fp, ice))
  }

  function ParseIce(m: seq<Pair>): Reply<Body> {
    var call :- GetCall(m, 5);
    var ice :- GetIce(m, 6);
    Ok(CallIce(call, ice))
  }

  function ParseCall(t: string, m: seq<Pair>): Reply<Body> {
    if t == "call_invite" then ParseInvite(m)
    else if t == "call_ringing" then var call :- GetCall(m, 5); Ok(CallRinging(call))
    else if t == "call_answer" then ParseAnswer(m)
    else if t == "call_ice" then ParseIce(m)
    else if t == "call_reject" then var call :- GetCall(m, 5); Ok(CallReject(call))
    else if t == "call_cancel" then var call :- GetCall(m, 5); Ok(CallCancel(call))
    else if t == "call_end" then var call :- GetCall(m, 5); Ok(CallEnd(call))
    else ParsePlain(t, m)
  }

  function GetHeader(m: seq<Pair>): Reply<Header> {
    var convSeq :- GetUint(m, 2);
    var sentAt :- GetUint(m, 3);
    if MapGet(m, 4).None? then Ok(Header(convSeq, sentAt, None))
    else var reply :- GetUint(m, 4); Ok(Header(convSeq, sentAt, Some(reply)))
  }

  function ParseMessage(m: seq<Pair>): Reply<Message> {
    var version :- GetUint(m, 0);
    if version != PROTOCOL_VERSION then Err(Version)
    else
      var t :- GetText(m, 1);
      var header :- GetHeader(m);
      var body :- ParseCall(t, m);
      if body.Unknown? then Ok(Message(header, body))
      else
        var _ :- Validate(body);
        Ok(Message(header, body))
  }

  function DecodeMessage(b: seq<Byte>): Reply<Message> {
    match Decode(b)
    case Err(e) => Err(BadCbor(e))
    case Ok(v) => if v.Map? then ParseMessage(v.pairs) else Err(NotMap)
  }

  // --------------------------------------------------------------------- field lookup

  lemma {:induction false} MapGetAt(m: seq<Pair>, i: nat)
    requires StrictlyAscending(m) && i < |m|
    ensures MapGet(m, m[i].key) == Some(m[i].val)
  {
    if i > 0 {
      assert m[0].key < m[i].key;
      MapGetAt(m[1..], i - 1);
    }
  }

  lemma {:induction false} MapGetNone(m: seq<Pair>, k: U64)
    requires forall i :: 0 <= i < |m| ==> m[i].key != k
    ensures MapGet(m, k) == None
  {
    if m != [] { MapGetNone(m[1..], k); }
  }

  /** Extra fields are numbered from 5 in order, and there are no others. */
  lemma ExtraKeys(body: Body)
    ensures forall i :: 0 <= i < |ExtraFields(body)| ==> ExtraFields(body)[i].key == 5 + i
  {
  }

  lemma HeadKeys(msg: Message)
    ensures forall i :: 0 <= i < |HeadFields(msg)| ==> HeadFields(msg)[i].key == i
    ensures 4 <= |HeadFields(msg)| <= 5
  {
  }

  /** Fields come in strictly ascending order. */
  lemma FieldsAscend(msg: Message)
    ensures StrictlyAscending(Fields(msg))
  {
    ExtraKeys(msg.body);
    HeadKeys(msg);
    hide HeadFields, ExtraFields;
  }

  /** What reading the fields back finds: every extra field where it was put, and nothing after the last. */
  lemma ExtraLookup(msg: Message, i: nat)
    ensures var extra := ExtraFields(msg.body);
            MapGet(Fields(msg), 5 + i) == if i < |extra| then Some(extra[i].val) else None
    requires 5 + i <= U64_MAX
  {
    var m, extra, n := Fields(msg), ExtraFields(msg.body), |HeadFields(msg)|;
    ExtraKeys(msg.body);
    HeadKeys(msg);
    FieldsAscend(msg);
    hide HeadFields, ExtraFields;
    if i < |extra| {
      assert m[n + i] == extra[i];
      MapGetAt(m, n + i);
    } else {
      MapGetNone(m, 5 + i);
    }
  }

  lemma HeadLookup(msg: Message, i: nat)
    requires i <= 4
    ensures var head := HeadFields(msg);
            MapGet(Fields(msg), i) == if i < |head| then Some(head[i].val) else None
  {
    var m, head := Fields(msg), HeadFields(msg);
    ExtraKeys(msg.body);
    HeadKeys(msg);
    FieldsAscend(msg);
    hide HeadFields, ExtraFields;
    if i < |head| {
      assert m[i] == head[i];
      MapGetAt(m, i);
    } else {
      MapGetNone(m, i);
    }
  }

  // ----------------------------------------------------------------------- round trip

  lemma {:induction false} TextsBack(items: seq<Value>, ice: seq<string>)
    requires |items| == |ice| && forall i :: 0 <= i < |ice| ==> items[i] == Text(ice[i])
    ensures Texts(items) == Ok(ice)
  {
    if ice != [] {
      TextsBack(items[1..], ice[1..]);
      assert ice == [ice[0]] + ice[1..];
    }
  }

  lemma IceBack(ice: seq<string>)
    ensures Texts(IceValue(ice).items) == Ok(ice)
  {
    TextsBack(IceValue(ice).items, ice);
  }

  lemma MetaBack(meta: FileMeta)
    ensures var m := MetaValue(meta).pairs;
            GetText(m, 0) == Ok(meta.name) && GetText(m, 1) == Ok(meta.mime) && GetUint(m, 2) == Ok(meta.size)
  {
    var m := MetaValue(meta).pairs;
    MapGetAt(m, 0);
    MapGetAt(m, 1);
    MapGetAt(m, 2);
  }

  lemma IntroBack(msg: Message)
    requires msg.body.Capability? && msg.body.intro.Some?
    ensures GetIntro(Fields(msg)) == Ok(msg.body.intro.value)
  {
    ExtraLookup(msg, 1);
    ExtraLookup(msg, 2);
    ExtraLookup(msg, 3);
    ExtraLookup(msg, 4);
    ExtraLookup(msg, 5);
    ExtraLookup(msg, 6);
    ExtraLookup(msg, 7);
    ExtraLookup(msg, 8);
    hide Fields, MapGet;
    var m, intro := Fields(msg), msg.body.intro.value;
    assert GetKey(m, 6) == Ok(intro.identityId) && GetKey(m, 7) == Ok(intro.identityPk);
    assert GetKey(m, 8) == Ok(intro.revocationPk) && GetKey(m, 9) == Ok(intro.destHpke);
    assert GetUint(m, 10) == Ok(intro.bindingSeq) && GetBytes(m, 11) == Ok(intro.sessionKey);
    assert GetKey(m, 12) == Ok(intro.recipient) && GetSignature(m, 13) == Ok(intro.signature);
    hide ExtraFields, GetKey, GetUint, GetBytes, GetSignature;
  }

  lemma CallBack(msg: Message)
    requires var b := msg.body;
             b.CallInvite? || b.CallRinging? || b.CallAnswer? || b.CallIce? || b.CallReject? || b.CallCancel? || b.CallEnd?
    ensures ParseCall(TypeName(msg.body), Fields(msg)) == Ok(msg.body)
  {
    ExtraLookup(msg, 0);
    ExtraLookup(msg, 1);
    ExtraLookup(msg, 2);
    ExtraLookup(msg, 3);
    ExtraLookup(msg, 4);
    hide Fields, MapGet, IceValue, Texts, ParsePlain;
    match msg.body
    case CallInvite(_, _, _, ice, _) => IceBack(ice);
    case CallAnswer(_, _, _, ice) => IceBack(ice);
    case CallIce(_, ice) => IceBack(ice);
    case _ =>
  }

  lemma PlainBack(msg: Message)
    requires var b := msg.body;
             b.TextBody? || b.Attachment? || b.Reaction? || b.Delete? || b.ProtocolAck? || b.ReadUpTo? || b.Capability?
             || b.BindingGossip? || b.Disappear? || b.GroupName?
    ensures ParsePlain(TypeName(msg.body), Fields(msg)) == Ok(msg.body)
  {
    ExtraLookup(msg, 0);
    ExtraLookup(msg, 1);
    ExtraLookup(msg, 2);
    hide Fields, MapGet, MetaValue, GetIntro;
    match msg.body
    case Attachment(_, meta, _) => MetaBack(meta);
    case Capability(_, intro) => if intro.Some? { IntroBack(msg); }
    case _ =>
  }

  lemma PlainIsNotCall(body: Body, m: seq<Pair>)
    requires body.TextBody? || body.Attachment? || body.Reaction? || body.Delete? || body.ProtocolAck? || body.ReadUpTo?
             || body.Capability? || body.BindingGossip? || body.Disappear? || body.GroupName?
    ensures ParseCall(TypeName(body), m) == ParsePlain(TypeName(body), m)
  {
    hide ParsePlain;
  }

  lemma BodyBack(msg: Message)
    requires !msg.body.Unknown?
    ensures ParseCall(TypeName(msg.body), Fields(msg)) == Ok(msg.body)
  {
    hide ParseCall, ParsePlain, TypeName, Fields;
    match msg.body
    case CallInvite(_, _, _, _, _) => CallBack(msg);
    case CallRinging(_) => CallBack(msg);
    case CallAnswer(_, _, _, _) => CallBack(msg);
    case CallIce(_, _) => CallBack(msg);
    case CallReject(_) => CallBack(msg);
    case CallCancel(_) => CallBack(msg);
    case CallEnd(_) => CallBack(msg);
    case _ =>
      PlainBack(msg);
      PlainIsNotCall(msg.body, Fields(msg));
  }

  lemma HeaderBack(msg: Message)
    ensures var m := Fields(msg);
            GetUint(m, 0) == Ok(PROTOCOL_VERSION) && GetText(m, 1) == Ok(TypeName(msg.body)) && GetHeader(m) == Ok(msg.header)
  {
    HeadLookup(msg, 0);
    HeadLookup(msg, 1);
    HeadLookup(msg, 2);
    HeadLookup(msg, 3);
    HeadLookup(msg, 4);
    hide Fields, MapGet;
  }

  /** Every value a message is made of is already in normal form. */
  lemma FieldsStrict(msg: Message)
    ensures Strict(Map(Fields(msg)))
  {
    FieldsAscend(msg);
    forall i | 0 <= i < |Fields(msg)| ensures Strict(Fields(msg)[i].val) {
      var n := |HeadFields(msg)|;
      if i < n { assert Fields(msg)[i] == HeadFields(msg)[i]; } else { assert Fields(msg)[i] == ExtraFields(msg.body)[i - n]; }
    }
  }

  /**
   Application round trip: whenever a message can be encoded, decoding gives it back, for every kind of body and
   every choice of optional fields; and it was within the limits and free of direct candidates.
   */
  lemma EncodedDecodes(msg: Message)
    requires Sized(Map(Fields(msg)))
    ensures EncodeMessage(msg).Ok? ==> DecodeMessage(EncodeMessage(msg).value) == Ok(msg)
    ensures EncodeMessage(msg).Ok? <==> !msg.body.Unknown? && Validate(msg.body).Ok?
  {
    FieldsStrict(msg);
    CanonOfStrict(Map(Fields(msg)));
    CanonStrict(Map(Fields(msg)));
    RoundTripExactly(Map(Fields(msg)), []);
    HeaderBack(msg);
    if !msg.body.Unknown? { BodyBack(msg); }
    hide Fields, Validate, ParseCall, GetHeader, GetUint, GetText, TypeName, Strict, Keyed, Canon, Sized, Encode, Decode;
  }

  function IceOf(body: Body): seq<string> {
    match body
    case CallInvite(_, _, _, ice, _) => ice
    case CallAnswer(_, _, _, ice) => ice
    case CallIce(_, ice) => ice
    case _ => []
  }

  /** The candidate says, in any case and as whole words, that it is a host or server-reflexive one. */
  ghost predicate Exposes(candidate: string) {
    Says(Lower(candidate), "typ", "host") || Says(Lower(candidate), "typ", "srflx")
  }

  lemma DirectIsExposing(candidate: string)
    ensures Direct(candidate) <==> Exposes(candidate)
  {
    assert "typ"[0] == 't' && Spaceless("typ") && Spaceless("host") && Spaceless("srflx");
    WordsAreText(Lower(candidate), "typ", "host");
    WordsAreText(Lower(candidate), "typ", "srflx");
  }

  /** The texts differ in the case of Latin letters only. */
  predicate SameButCase(a: string, b: string) {
    && |a| == |b|
    && forall i :: 0 <= i < |a| ==>
         a[i] == b[i] || ('A' <= a[i] <= 'Z' && b[i] as int == a[i] as int + 32) || ('A' <= b[i] <= 'Z' && a[i] as int == b[i] as int + 32)
  }

  /** Case makes no difference. */
  lemma CaseIsNoCover(a: string, b: string)
    requires SameButCase(a, b)
    ensures Exposes(a) <==> Exposes(b)
  {
    assert Lower(a) == Lower(b);
    hide Says;
  }

  /** Nor do surroundings, nor which kind of blank stands between the words. */
  lemma WordsExpose(front: string, blank: char, kind: string, back: string)
    requires blank == ' ' || blank == '\t' || blank == '\n' || blank == '\r'
    requires kind == "host" || kind == "srflx"
    requires Lower(front) == front && Lower(back) == back
    ensures Exposes(front + " " + "typ" + [blank] + kind + (" " + back))
  {
    var s := front + " " + "typ" + [blank] + kind + (" " + back);
    assert Phrase(s, front + " ", "typ", [blank], kind, " " + back);
    hide Phrase;
    assert Lower(s) == s by {
      assert forall i :: 0 <= i < |front| ==> Lower(front)[i] == front[i];
      assert forall i :: 0 <= i < |back| ==> Lower(back)[i] == back[i];
    }
  }

  /** No candidate that exposes an address gets through, in either direction. */
  lemma NoExposureGetsThrough(msg: Message, b: seq<Byte>, k: nat)
    requires k < |IceOf(msg.body)|
    requires (Sized(Map(Fields(msg))) && EncodeMessage(msg).Ok?) || DecodeMessage(b) == Ok(msg)
    ensures !Exposes(IceOf(msg.body)[k])
  {
    DirectIsExposing(IceOf(msg.body)[k]);
    hide Fields, ParseCall, GetHeader, GetUint, GetText, Decode, Encode, Exposes, Direct;
    assert Validate(msg.body).Ok?;
  }

  /** The limits, in bytes: 8192 for a text, 128 for a group name, 32 for a reaction; and no exposing candidate. */
  ghost predicate Within(body: Body) {
    && (body.TextBody? ==> |Utf8.Encode(body.text)| <= 8192)
    && (body.GroupName? ==> |Utf8.Encode(body.name)| <= 128)
    && (body.Reaction? ==> |Utf8.Encode(body.emoji)| <= 32)
    && forall k :: 0 <= k < |IceOf(body)| ==> !Exposes(IceOf(body)[k])
  }

  /** A message is written exactly if it is of a known kind and within the limits, and the refusal says which it was. */
  lemma LimitsInBytes(msg: Message)
    requires Sized(Map(Fields(msg)))
    ensures var r := EncodeMessage(msg);
            && (r.Ok? <==> !msg.body.Unknown? && Within(msg.body))
            && (r.Err? ==> r.error == if msg.body.Unknown? then UnknownType
                                      else if msg.body.TextBody? || msg.body.GroupName? then TextTooLong
                                      else if msg.body.Reaction? then EmojiTooLong else DirectIce)
  {
    ValidIsWithin(msg.body);
    hide Fields, Encode, Within, Direct;
  }

  /** A message of a known kind that is read is within the limits. */
  lemma LimitsOnArrival(b: seq<Byte>)
    requires DecodeMessage(b).Ok? && !DecodeMessage(b).value.body.Unknown?
    ensures Within(DecodeMessage(b).value.body)
  {
    ValidIsWithin(DecodeMessage(b).value.body);
    hide ParseCall, GetHeader, GetUint, GetText, Decode, Validate, Within;
  }

  lemma ValidIsWithin(body: Body)
    ensures Validate(body).Ok? <==> Within(body)
  {
    var ice := IceOf(body);
    forall k | 0 <= k < |ice| ensures Direct(ice[k]) <==> Exposes(ice[k]) { DirectIsExposing(ice[k]); }
    hide Direct, Exposes;
    assert NoDirect(ice) <==> forall k :: 0 <= k < |ice| ==> !Exposes(ice[k]);
    match body
    case CallInvite(_, _, _, _, _) =>
    case CallAnswer(_, _, _, _) =>
    case CallIce(_, _) =>
    case _ => assert ice == [];
  }

  // ------------------------------------------------------------------ what is refused

  /** The kinds of messages there are. */
  const KINDS: set<string> := {"text", "attachment", "reaction", "delete", "protocol_ack", "read", "capability", "binding_gossip",
                               "disappear", "group_name", "call_invite", "call_ringing", "call_answer", "call_ice", "call_reject",
                               "call_cancel", "call_end"}

  /** Only version 1 is read, and only with a type, a number and a time. */
  lemma HeaderRequired(b: seq<Byte>)
    requires DecodeMessage(b).Ok?
    ensures var v, msg := Decode(b), DecodeMessage(b).value;
            && v.Ok? && v.value.Map? && MapGet(v.value.pairs, 0) == Some(Uint(1))
            && MapGet(v.value.pairs, 2) == Some(Uint(msg.header.convSeq)) && MapGet(v.value.pairs, 3) == Some(Uint(msg.header.sentAt))
            && MapGet(v.value.pairs, 1).Some? && MapGet(v.value.pairs, 1).value.Text?
  {
    hide Decode, MapGet, ParseCall, Validate;
  }

  /** An introduction that lacks its session key, recipient or signature is refused. */
  lemma UnsignedIntroRefused(b: seq<Byte>)
    requires Decode(b).Ok? && Decode(b).value.Map? && MapGet(Decode(b).value.pairs, 1) == Some(Text("capability"))
    requires var m := Decode(b).value.pairs;
             MapGet(m, 6).Some? && (MapGet(m, 11).None? || MapGet(m, 12).None? || MapGet(m, 13).None?)
    ensures DecodeMessage(b).Err?
  {
    var m := Decode(b).value.pairs;
    assert GetIntro(m).Err? by { hide Decode, MapGet; }
    assert ParsePlain("capability", m).Err? by { hide Decode, MapGet, GetIntro; }
    assert ParseCall("capability", m) == ParsePlain("capability", m) by { hide ParsePlain, Decode, MapGet; }
    hide Decode, MapGet, ParseCall, ParsePlain, Validate;
  }

  /** A message of a kind that is not known is read as such, with its header. */
  lemma UnknownKept(b: seq<Byte>, t: string, seqNo: U64, at: U64)
    requires Decode(b).Ok? && Decode(b).value.Map? && t !in KINDS
    requires var m := Decode(b).value.pairs;
             MapGet(m, 0) == Some(Uint(1)) && MapGet(m, 1) == Some(Text(t)) && MapGet(m, 2) == Some(Uint(seqNo))
             && MapGet(m, 3) == Some(Uint(at)) && MapGet(m, 4) == None
    ensures DecodeMessage(b) == Ok(Message(Header(seqNo, at, None), Unknown(t)))
  {
    assert ParseCall(t, Decode(b).value.pairs) == Ok(Unknown(t)) by { hide Decode, MapGet; }
    hide Decode, MapGet, ParseCall, Validate;
  }

  // ----------------------------------------------------------------------- on the wire

  /** The wire name of each kind and its fields from number 5 on, as another implementation would list them. */
  function WireForm(body: Body): (string, seq<Value>) {
    match body
    case TextBody(text) => ("text", [Text(text)])
    case Attachment(file, FileMeta(name, mime, size), token) =>
      ("attachment", [Bytes(file), Map([Pair(0, Text(name)), Pair(1, Text(mime)), Pair(2, Uint(size))])]
                     + if token.Some? then [Bytes(token.value)] else [])
    case Reaction(target, emoji) => ("reaction", [Uint(target), Text(emoji)])
    case Delete(target) => ("delete", [Uint(target)])
    case ProtocolAck(upTo) => ("protocol_ack", [Uint(upTo)])
    case ReadUpTo(upTo) => ("read", [Uint(upTo)])
    case Capability(cap, None) => ("capability", [Bytes(cap)])
    case Capability(cap, Some(i)) =>
      ("capability", [Bytes(cap), Bytes(i.identityId), Bytes(i.identityPk), Bytes(i.revocationPk), Bytes(i.destHpke),
                      Uint(i.bindingSeq), Bytes(i.sessionKey), Bytes(i.recipient), Bytes(i.signature)])
    case BindingGossip(id, s, server) => ("binding_gossip", [Bytes(id), Uint(s), Bytes(server)])
    case Disappear(seconds) => ("disappear", [Uint(seconds)])
    case GroupName(group, name) => ("group_name", [Bytes(group), Text(name)])
    case CallInvite(call, sdp, fp, ice, expires) => ("call_invite", [Bytes(call), Text(sdp), Text(fp), IceValue(ice), Uint(expires)])
    case CallRinging(call) => ("call_ringing", [Bytes(call)])
    case CallAnswer(call, sdp, fp, ice) => ("call_answer", [Bytes(call), Text(sdp), Text(fp), IceValue(ice)])
    case CallIce(call, ice) => ("call_ice", [Bytes(call), IceValue(ice)])
    case CallReject(call) => ("call_reject", [Bytes(call)])
    case CallCancel(call) => ("call_cancel", [Bytes(call)])
    case CallEnd(call) => ("call_end", [Bytes(call)])
    case Unknown(t) => (t, [])
  }

  /** What the bytes of a written message hold under each number, and that they hold nothing else. */
  lemma WireTable(msg: Message, k: U64)
    requires Sized(Map(Fields(msg))) && EncodeMessage(msg).Ok?
    ensures var v := Decode(EncodeMessage(msg).value);
            v.Ok? && v.value.Map? && MapGet(v.value.pairs, k) == (if k < 5 then HeadOnWire(msg, k) else ExtraOnWire(msg.body, k))
  {
    WrittenFields(msg);
    hide Encode, Decode, EncodeMessage, Sized, Fields, MapGet;
    if k < 5 { HeadFound(msg, k); } else { ExtraFound(msg, k); }
    hide HeadOnWire, ExtraOnWire;
  }

  function HeadOnWire(msg: Message, k: U64): Option<Value> {
    if k == 0 then Some(Uint(1))
    else if k == 1 then Some(Text(WireForm(msg.body).0))
    else if k == 2 then Some(Uint(msg.header.convSeq))
    else if k == 3 then Some(Uint(msg.header.sentAt))
    else if msg.header.replyTo.Some? then Some(Uint(msg.header.replyTo.value)) else None
  }

  function ExtraOnWire(body: Body, k: U64): Option<Value>
    requires k >= 5
  {
    var extra := WireForm(body).1;
    if k - 5 < |extra| then Some(extra[k - 5]) else None
  }

  lemma HeadFound(msg: Message, k: U64)
    requires k < 5
    ensures MapGet(Fields(msg), k) == HeadOnWire(msg, k)
  {
    hide MapGet, ExtraFields, TypeName, WireForm;
    HeadLookup(msg, k);
    NameIs(msg.body);
  }

  lemma ExtraFound(msg: Message, k: U64)
    requires k >= 5
    ensures MapGet(Fields(msg), k) == ExtraOnWire(msg.body, k)
  {
    hide MapGet, ExtraFields, HeadFields, WireForm;
    ExtraLookup(msg, k - 5);
    ExtraAre(msg.body);
  }

  lemma NameIs(body: Body)
    ensures TypeName(body) == WireForm(body).0
  {
  }

  lemma ExtraAre(body: Body)
    ensures var values := WireForm(body).1;
            |ExtraFields(body)| == |values| && forall i :: 0 <= i < |values| ==> ExtraFields(body)[i].val == values[i]
  {
    hide IceValue;
  }

  lemma WrittenFields(msg: Message)
    requires Sized(Map(Fields(msg))) && EncodeMessage(msg).Ok?
    ensures Decode(EncodeMessage(msg).value) == Ok(Map(Fields(msg)))
  {
    FieldsStrict(msg);
    CanonOfStrict(Map(Fields(msg)));
    CanonStrict(Map(Fields(msg)));
    RoundTripExactly(Map(Fields(msg)), []);
    hide Fields, Validate, Strict, Keyed, Canon, Sized;
  }

  // --------------------------------------------------------------------- normalisation

  lemma {:induction false} MapGetSized(m: seq<Pair>, k: U64)
    requires forall i :: 0 <= i < |m| ==> Sized(m[i].val)
    ensures MapGet(m, k).Some? ==> Sized(MapGet(m, k).value)
  {
    if m != [] { MapGetSized(m[1..], k); }
  }

  lemma {:induction false} TextsSized(items: seq<Value>)
    requires Texts(items).Ok? && forall i :: 0 <= i < |items| ==> Sized(items[i])
    ensures |Texts(items).value| == |items|
    ensures forall i :: 0 <= i < |items| ==> Sized(Text(Texts(items).value[i]))
  {
    if items != [] { TextsSized(items[1..]); }
  }

  lemma {:induction false} Utf8AtMostFour(s: string)
    ensures |Utf8.Encode(s)| <= 4 * |s|
  {
    if s != "" { Utf8AtMostFour(s[1..]); }
  }

  lemma MetaSized(m: seq<Pair>, k: U64)
    requires GetMeta(m, k).Ok? && forall i :: 0 <= i < |m| ==> Sized(m[i].val)
    ensures Sized(MetaValue(GetMeta(m, k).value))
  {
    MapGetSized(m, k);
    var inner := MapGet(m, k).value.pairs;
    MapGetSized(inner, 0);
    MapGetSized(inner, 1);
  }

  lemma IceSized(m: seq<Pair>, k: U64)
    requires GetIce(m, k).Ok? && forall i :: 0 <= i < |m| ==> Sized(m[i].val)
    ensures Sized(IceValue(GetIce(m, k).value))
  {
    MapGetSized(m, k);
    TextsSized(MapGet(m, k).value.items);
  }

  ghost predicate AllSized(pairs: seq<Pair>) {
    forall i :: 0 <= i < |pairs| ==> Sized(pairs[i].val)
  }

  lemma CallSized(t: string, m: seq<Pair>, body: Body)
    requires AllSized(m) && ParseCall(t, m) == Ok(body) && ParsePlain(t, m) != Ok(body)
    ensures AllSized(ExtraFields(body))
  {
    if body.CallInvite? || body.CallAnswer? {
      assert ParseInvite(m) == Ok(body) || ParseAnswer(m) == Ok(body) by { hide ParsePlain, ParseInvite, ParseAnswer, ParseIce; }
      SdpSized(m);
    } else if body.CallIce? {
      assert ParseIce(m) == Ok(body) by { hide ParsePlain; }
      IceSized(m, 6);
      hide GetIce, IceValue, ParsePlain, ParseCall, MapGet;
    } else {
      hide ParseInvite, ParseAnswer, ParseIce, ParsePlain, MapGet;
    }
  }

  lemma SdpSized(m: seq<Pair>)
    requires AllSized(m) && (ParseInvite(m).Ok? || ParseAnswer(m).Ok?)
    ensures ParseInvite(m).Ok? ==> AllSized(ExtraFields(ParseInvite(m).value))
    ensures ParseAnswer(m).Ok? ==> AllSized(ExtraFields(ParseAnswer(m).value))
  {
    MapGetSized(m, 6);
    MapGetSized(m, 7);
    assert GetText(m, 6).Ok? && Sized(Text(GetText(m, 6).value));
    assert GetText(m, 7).Ok? && Sized(Text(GetText(m, 7).value));
    IceSized(m, 8);
    hide MapGet, GetText, GetIce, Texts, IceValue;
  }

  lemma CapabilitySized(t: string, m: seq<Pair>, body: Body)
    requires AllSized(m) && ParsePlain(t, m) == Ok(body) && body.Capability?
    ensures AllSized(ExtraFields(body))
  {
    MapGetSized(m, 11);
    assert GetIntro(m).Ok? ==> Sized(Bytes(GetIntro(m).value.sessionKey)) by { hide GetKey, GetSignature, GetUint; }
    hide MapGet, GetIntro;
  }

  lemma AttachmentSized(t: string, m: seq<Pair>, body: Body)
    requires AllSized(m) && ParsePlain(t, m) == Ok(body) && body.Attachment?
    ensures AllSized(ExtraFields(body))
  {
    MapGetSized(m, 5);
    MetaSized(m, 6);
    hide MapGet, GetMeta, MetaValue, GetIntro;
  }

  lemma SimpleSized(t: string, m: seq<Pair>, body: Body)
    requires AllSized(m) && ParsePlain(t, m) == Ok(body) && !body.Attachment? && !body.Capability? && !body.Unknown?
    ensures AllSized(ExtraFields(body))
  {
    MapGetSized(m, 5);
    MapGetSized(m, 6);
    assert GetText(m, 5).Ok? ==> Sized(Text(GetText(m, 5).value));
    assert GetText(m, 6).Ok? ==> Sized(Text(GetText(m, 6).value));
    hide MapGet, GetText, GetMeta, GetIntro;
  }

  lemma PlainSized(t: string, m: seq<Pair>, body: Body)
    requires AllSized(m) && ParsePlain(t, m) == Ok(body) && !body.Unknown?
    ensures AllSized(ExtraFields(body))
  {
    hide ParsePlain, AllSized, ExtraFields;
    if body.Capability? {
      CapabilitySized(t, m, body);
    } else if body.Attachment? {
      AttachmentSized(t, m, body);
    } else {
      SimpleSized(t, m, body);
    }
  }

  lemma ShortNames(body: Body)
    requires !body.Unknown?
    ensures Sized(Text(TypeName(body)))
  {
    Utf8AtMostFour(TypeName(body));
    assert |TypeName(body)| <= 14;
  }

  lemma FieldsSized(msg: Message)
    requires !msg.body.Unknown? && AllSized(ExtraFields(msg.body))
    ensures Sized(Map(Fields(msg)))
  {
    ShortNames(msg.body);
    hide TypeName;
    var n := |HeadFields(msg)|;
    forall i | 0 <= i < |Fields(msg)| ensures Sized(Fields(msg)[i].val) {
      if i < n { assert Fields(msg)[i] == HeadFields(msg)[i]; } else { assert Fields(msg)[i] == ExtraFields(msg.body)[i - n]; }
    }
    assert |ExtraFields(msg.body)| <= 9;
  }

  /**
   Whatever decodes to a message of a known kind can be encoded again, and comes back as the same message.
   */
  lemma DecodedReencodes(b: seq<Byte>)
    requires DecodeMessage(b).Ok? && !DecodeMessage(b).value.body.Unknown?
    ensures var msg := DecodeMessage(b).value;
            && Sized(Map(Fields(msg)))
            && EncodeMessage(msg).Ok?
            && DecodeMessage(EncodeMessage(msg).value) == Ok(msg)
  {
    var msg := DecodeMessage(b).value;
    ReencodeNeverGrows(b);
    var m := Decode(b).value.pairs;
    assert AllSized(m);
    var t := GetText(m, 1).value;
    assert ParseCall(t, m) == Ok(msg.body) && Validate(msg.body).Ok? by { hide ParseCall, Validate; }
    hide Decode, Encode, Validate, DecodeMessage, Sized, Strict;
    if ParsePlain(t, m) == Ok(msg.body) { PlainSized(t, m, msg.body); } else { CallSized(t, m, msg.body); }
    hide ParseCall, ParsePlain;
    FieldsSized(msg);
    EncodedDecodes(msg);
  }
}
