/** Writing an application message onto a pair list, and the loops of its reader. */
module AppCodec {
  import opened Basics
  import opened Cbor
  import CborCodec
  import opened Ice
  import opened App

  method CheckLimits(body: Body) returns (r: App.Reply<()>)
    ensures r == Validate(body)
  {
    match body {
      case TextBody(text) =>
        if Utf8Len(text) > TEXT_MAX_BYTES { return Err(TextTooLong); }
        return Ok(());
      case GroupName(_, name) =>
        if Utf8Len(name) > GROUP_NAME_MAX_BYTES { return Err(TextTooLong); }
        return Ok(());
      case Reaction(_, emoji) =>
        if Utf8Len(emoji) > EMOJI_MAX_BYTES { return Err(EmojiTooLong); }
        return Ok(());
      case CallInvite(_, _, _, ice, _) =>
        var ok := RejectDirectIce(ice);
        return if ok then Ok(()) else Err(DirectIce);
      case CallAnswer(_, _, _, ice) =>
        var ok := RejectDirectIce(ice);
        return if ok then Ok(()) else Err(DirectIce);
      case CallIce(_, ice) =>
        var ok := RejectDirectIce(ice);
        return if ok then Ok(()) else Err(DirectIce);
      case _ => return Ok(());
    }
  }

  /** Push the header pairs, the reply target if there is one, and the body's own pairs; then encode the map. */
  method WriteMessage(msg: Message) returns (r: App.Reply<seq<Byte>>)
    requires Sized(Map(Fields(msg)))
    ensures r == EncodeMessage(msg)
  {
    hide Validate, ExtraFields, Encode, TypeName;
    if msg.body.Unknown? { return Err(UnknownType); }
    var ok := CheckLimits(msg.body);
    if ok.Err? { return Err(ok.error); }
    var pairs := [Pair(0, Uint(PROTOCOL_VERSION)), Pair(1, Text(TypeName(msg.body)))];
    pairs := pairs + [Pair(2, Uint(msg.header.convSeq)), Pair(3, Uint(msg.header.sentAt))];
    if msg.header.replyTo.Some? { pairs := pairs + [Pair(4, Uint(msg.header.replyTo.value))]; }
    assert pairs == HeadFields(msg);
    pairs := pairs + ExtraFields(msg.body);
    var out := CborCodec.EncodeValue(Map(pairs));
    return Ok(out);
  }

  lemma {:induction false} TextsSplit(items: seq<Value>, i: nat)
    requires i < |items| && Texts(items[..i]).Ok?
    ensures items[i].Text? ==> Texts(items[..i + 1]) == Ok(Texts(items[..i]).value + [items[i].s])
    ensures !items[i].Text? ==> Texts(items) == Err(WrongType)
    decreases i
  {
    if i > 0 {
      assert items[..i][1..] == items[1..][..i - 1] && items[..i + 1][1..] == items[1..][..i];
      TextsSplit(items[1..], i - 1);
      var front := Texts(items[1..][..i - 1]).value;
      assert items[..i][0] == items[0] && items[..i + 1][0] == items[0];
      assert items[i].Text? ==> [items[0].s] + (front + [items[i].s]) == [items[0].s] + front + [items[i].s];
    } else {
      var one := items[..1];
      assert items[..0] == [] && one[1..] == [] && one[0] == items[0];
      assert Texts(one[1..]) == Ok([]) && Texts(items[..0]) == Ok([]);
      if items[0].Text? {
        assert one[0].Text? && Texts(one) == Ok([one[0].s] + Texts(one[1..]).value);
        assert [items[0].s] + [] == [] + [items[0].s];
      }
    }
  }

  method DecodeIce(items: seq<Value>) returns (r: App.Reply<seq<string>>)
    ensures r == Texts(items)
  {
    var ice := [];
    for i := 0 to |items|
      invariant Texts(items[..i]) == Ok(ice)
    {
      TextsSplit(items, i);
      if !items[i].Text? { return Err(WrongType); }
      ice := ice + [items[i].s];
    }
    assert items[..|items|] == items;
    return Ok(ice);
  }
}
