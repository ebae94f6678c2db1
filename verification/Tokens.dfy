/**
 * Callback tokens carried by the inline buttons under an order message,
 * and the dispatch of a pressed button (`button_handler`). A token is a
 * colon-separated string: `action:<order id>:<verb>`,
 * `confirm:<order id>:<category>` or `custom:<order id>`.
 */
module Tokens {
  import opened Wrappers
  import opened Text
  import opened Digits

  datatype Verb = Approve | Pause | Cancel

  datatype Token =
    | ActionToken(orderId: string, verb: Verb)
    | ConfirmToken(orderId: string, category: string)
    | CustomToken(orderId: string)

  /** What pressing a button leads to. */
  datatype ButtonOutcome =
    | Crashed(exception: string)           // an exception escapes the handler
    | SessionExpired                       // "❌ Сессия устарела."
    | ShowCategories(keyboard: seq<string>) // the category keyboard replaces the buttons
    | AwaitComment(orderId: string)        // a free-text comment is requested
    | Submit(orderId: string, category: string) // the approval is sent with this category
    | Ignored                              // nothing happens

  function VerbText(v: Verb): string {
    match v
    case Approve => "approve"
    case Pause => "pause"
    case Cancel => "cancel"
  }

  function ParseVerb(s: string): (r: Option<Verb>)
    ensures r.Some? <==> s == "approve" || s == "pause" || s == "cancel"
    ensures r.Some? ==> VerbText(r.value) == s
  {
    if s == "approve" then Some(Approve)
    else if s == "pause" then Some(Pause)
    else if s == "cancel" then Some(Cancel)
    else None
  }

  /** The segments a token is written as. */
  function Segments(t: Token): seq<string> {
    match t
    case ActionToken(id, v) => ["action", id, VerbText(v)]
    case ConfirmToken(id, c) => ["confirm", id, c]
    case CustomToken(id) => ["custom", id]
  }

  /** The callback data string of a token. */
  function Encode(t: Token): string {
    Join(Segments(t), ":")
  }

  /** A token whose order id contains no colon (an integer's text never does). */
  predicate WellFormed(t: Token) {
    ':' !in t.orderId
  }

  /**
   * Decoding validated at the boundary: the first segment must be one of
   * the three kinds with enough segments after it, an action's verb must
   * be known, and anything else decodes to nothing. A confirm category is
   * everything after the second colon (`data.split(":", 2)`); a custom
   * token uses its second segment.
   */
  function Decode(data: string): (r: Option<Token>)
    ensures r.Some? ==> ':' !in r.value.orderId
    ensures var parts := Split(data, ':');
      r.Some? <==>
        || (parts[0] == "action" && |parts| == 3 && ParseVerb(parts[2]).Some?)
        || (parts[0] == "confirm" && |parts| >= 3)
        || (parts[0] == "custom" && |parts| >= 2)
  {
    var parts := Split(data, ':');
    assert ':' !in parts[0];
    assert |parts| >= 2 ==> ':' !in parts[1];
    DecodeParts(parts)
  }

  /** Decoding once the data is split into its segments. */
  function DecodeParts(parts: seq<string>): (r: Option<Token>)
    requires |parts| >= 1
    ensures r.Some? <==>
      || (parts[0] == "action" && |parts| == 3 && ParseVerb(parts[2]).Some?)
      || (parts[0] == "confirm" && |parts| >= 3)
      || (parts[0] == "custom" && |parts| >= 2)
    ensures r.Some? ==> |parts| >= 2 && r.value.orderId == parts[1]
    ensures r.Some? && r.value.ActionToken? ==>
      parts == ["action", r.value.orderId, VerbText(r.value.verb)]
    ensures r.Some? && r.value.ConfirmToken? ==>
      parts[0] == "confirm" && r.value.category == Join(parts[2..], ":")
    ensures r.Some? && r.value.CustomToken? ==> parts[0] == "custom"
  {
    if parts[0] == "action" && |parts| == 3 then
      match ParseVerb(parts[2])
      case Some(v) => Some(ActionToken(parts[1], v))
      case None => None
    else if parts[0] == "confirm" && |parts| >= 3 then
      Some(ConfirmToken(parts[1], Join(parts[2..], ":")))
    else if parts[0] == "custom" && |parts| >= 2 then
      Some(CustomToken(parts[1]))
    else None
  }

  lemma SplitThree(a: string, b: string, c: string)
    requires ':' !in a && ':' !in b
    ensures Split(Join([a, b, c], ":"), ':') == [a, b] + Split(c, ':')
  {
    JoinCons(b, [c], ":");
    assert [b] + [c] == [b, c];
    JoinCons(a, [b, c], ":");
    assert [a] + [b, c] == [a, b, c];
    assert ":" == [':'];
    SplitCons(b, ':', c);
    SplitCons(a, ':', b + ":" + c);
  }

  lemma ActionSegments(id: string, v: Verb)
    requires ':' !in id
    ensures Split(Encode(ActionToken(id, v)), ':') == ["action", id, VerbText(v)]
  {
    var parts := ["action", id, VerbText(v)];
    assert ':' !in VerbText(v);
    assert forall k :: 0 <= k < |parts| ==> ':' !in parts[k];
    SplitJoin(parts, ':');
  }

  lemma ConfirmSegments(id: string, c: string)
    requires ':' !in id
    ensures Split(Encode(ConfirmToken(id, c)), ':') == ["confirm", id] + Split(c, ':')
  {
    assert Encode(ConfirmToken(id, c)) == Join(["confirm", id, c], ":");
    SplitThree("confirm", id, c);
  }

  lemma CustomSegments(id: string)
    requires ':' !in id
    ensures Split(Encode(CustomToken(id)), ':') == ["custom", id]
  {
    var parts := ["custom", id];
    assert forall k :: 0 <= k < |parts| ==> ':' !in parts[k];
    SplitJoin(parts, ':');
  }

  /**
   * Splitting an encoded token on `:` gives back exactly its segments:
   * `action`, the id text and the verb, or `custom` and the id; a confirm
   * token gives `confirm`, the id, and the category's own segments.
   */
  lemma EncodeSegments(t: Token)
    requires WellFormed(t)
    ensures !t.ConfirmToken? ==> Split(Encode(t), ':') == Segments(t)
    ensures t.ConfirmToken? ==> Split(Encode(t), ':') == ["confirm", t.orderId] + Split(t.category, ':')
  {
    match t
    case ActionToken(id, v) => ActionSegments(id, v);
    case ConfirmToken(id, c) => ConfirmSegments(id, c);
    case CustomToken(id) => CustomSegments(id);
  }

  lemma DecodeAction(id: string, v: Verb)
    requires ':' !in id
    ensures Decode(Encode(ActionToken(id, v))) == Some(ActionToken(id, v))
  {
    ActionSegments(id, v);
    assert ParseVerb(VerbText(v)) == Some(v);
  }

  lemma DecodeConfirm(id: string, c: string)
    requires ':' !in id
    ensures Decode(Encode(ConfirmToken(id, c))) == Some(ConfirmToken(id, c))
  {
    ConfirmSegments(id, c);
    var parts := ["confirm", id] + Split(c, ':');
    assert parts[2..] == Split(c, ':');
    JoinSplit(c, ':');
  }

  lemma DecodeCustom(id: string)
    requires ':' !in id
    ensures Decode(Encode(CustomToken(id))) == Some(CustomToken(id))
  {
    CustomSegments(id);
  }

  /** Every well-formed token decodes back to itself. */
  lemma DecodeEncode(t: Token)
    requires WellFormed(t)
    ensures Decode(Encode(t)) == Some(t)
  {
    match t
    case ActionToken(id, v) => DecodeAction(id, v);
    case ConfirmToken(id, c) => DecodeConfirm(id, c);
    case CustomToken(id) => DecodeCustom(id);
  }

  /** A token is decoded only from its own encoding: decoding is injective on what the bot writes. */
  lemma EncodeInjective(t: Token, u: Token)
    requires WellFormed(t) && WellFormed(u) && Encode(t) == Encode(u)
    ensures t == u
  {
    DecodeEncode(t);
    DecodeEncode(u);
  }

  /**
   * `create_action_buttons(order_id)`: approve, pause and cancel for one
   * order, `id` being the order id's text.
   */
  function ActionKeyboard(id: string): seq<string> {
    [Encode(ActionToken(id, Approve)), Encode(ActionToken(id, Pause)), Encode(ActionToken(id, Cancel))]
  }

  /** The category keyboard: paid, subsidy, or a free-text comment. */
  function CategoryKeyboard(orderId: string): seq<string> {
    [Encode(ConfirmToken(orderId, "платно")), Encode(ConfirmToken(orderId, "субсидия")),
     Encode(CustomToken(orderId))]
  }

  /**
   * `button_handler` as written. An action token must have exactly three
   * segments (else the unpacking raises ValueError) and its user must be
   * registered; every other token needs a second segment (else
   * IndexError); the confirm branch calls `.split` on the list of segments
   * and always raises AttributeError.
   */
  function HandleButtonAsWritten(data: string, registered: bool): ButtonOutcome {
    var parts := Split(data, ':');
    if parts[0] == "action" then
      if |parts| != 3 then Crashed("ValueError")
      else if !registered then SessionExpired
      else if parts[2] == "approve" then ShowCategories(CategoryKeyboard(parts[1]))
      else Ignored
    else if |parts| < 2 then Crashed("IndexError")
    else if parts[0] == "confirm" then Crashed("AttributeError")
    else if parts[0] == "custom" then AwaitComment(parts[1])
    else Ignored
  }

  /**
   * The handler with the confirm branch repaired: the token is decoded
   * once, anything that does not decode is ignored, and a confirm token
   * submits its category for its order.
   */
  function HandleButton(data: string, registered: bool): ButtonOutcome {
    match Decode(data)
    case None => Ignored
    case Some(ActionToken(id, v)) =>
      if !registered then SessionExpired
      else if v == Approve then ShowCategories(CategoryKeyboard(id))
      else Ignored
    case Some(ConfirmToken(id, c)) => Submit(id, c)
    case Some(CustomToken(id)) => AwaitComment(id)
  }

  /**
   * Data whose first segment is none of the three kinds is ignored by the
   * repaired handler; as written it is ignored too, unless it has no colon
   * at all, when reading the second segment raises.
   */
  lemma UnknownButtonIgnored(data: string, registered: bool)
    requires var kind := Split(data, ':')[0]; kind != "action" && kind != "confirm" && kind != "custom"
    ensures HandleButton(data, registered) == Ignored
    ensures HandleButtonAsWritten(data, registered) ==
      if |Split(data, ':')| < 2 then Crashed("IndexError") else Ignored
  {
  }

  /** As written, every confirm button of the category keyboard crashes the handler. */
  lemma ConfirmCrashesAsWritten(id: string, category: string, registered: bool)
    requires ':' !in id
    ensures HandleButtonAsWritten(Encode(ConfirmToken(id, category)), registered) == Crashed("AttributeError")
  {
    EncodeSegments(ConfirmToken(id, category));
  }

  /** Repaired, each token dispatches on what it carries. */
  lemma HandleButtonEncoded(t: Token, registered: bool)
    requires WellFormed(t)
    ensures HandleButton(Encode(t), registered) ==
      match t
      case ActionToken(id, v) =>
        if !registered then SessionExpired
        else if v == Approve then ShowCategories(CategoryKeyboard(id))
        else Ignored
      case ConfirmToken(id, c) => Submit(id, c)
      case CustomToken(id) => AwaitComment(id)
  {
    DecodeEncode(t);
  }

  /** On the action and custom buttons the bot shows, the repair changes nothing. */
  lemma HandleButtonAgrees(t: Token, registered: bool)
    requires WellFormed(t) && !t.ConfirmToken?
    ensures HandleButton(Encode(t), registered) == HandleButtonAsWritten(Encode(t), registered)
  {
    DecodeEncode(t);
    EncodeSegments(t);
  }

  /**
   * The buttons under an order carry that order's id as integer text and
   * the three verbs, in order, and the id text reads back as the id.
   */
  lemma ActionKeyboardTokens(orderId: int)
    ensures var kb := ActionKeyboard(IntText(orderId));
      && |kb| == 3
      && Decode(kb[0]) == Some(ActionToken(IntText(orderId), Approve))
      && Decode(kb[1]) == Some(ActionToken(IntText(orderId), Pause))
      && Decode(kb[2]) == Some(ActionToken(IntText(orderId), Cancel))
      && ParseInt(IntText(orderId)) == Some(orderId)
  {
    var id := IntText(orderId);
    DecodeEncode(ActionToken(id, Approve));
    DecodeEncode(ActionToken(id, Pause));
    DecodeEncode(ActionToken(id, Cancel));
    IntTextRoundTrip(orderId);
  }

  /**
   * Pressing approve shows the category keyboard for the same order; its
   * paid and subsidy buttons submit that category and its last button asks
   * for a free-text comment.
   */
  lemma ApproveFlow(id: string, registered: bool)
    requires ':' !in id && registered
    ensures HandleButton(Encode(ActionToken(id, Approve)), registered) == ShowCategories(CategoryKeyboard(id))
    ensures HandleButton(CategoryKeyboard(id)[0], registered) == Submit(id, "платно")
    ensures HandleButton(CategoryKeyboard(id)[1], registered) == Submit(id, "субсидия")
    ensures HandleButton(CategoryKeyboard(id)[2], registered) == AwaitComment(id)
  {
    HandleButtonEncoded(ActionToken(id, Approve), registered);
    HandleButtonEncoded(ConfirmToken(id, "платно"), registered);
    HandleButtonEncoded(ConfirmToken(id, "субсидия"), registered);
    HandleButtonEncoded(CustomToken(id), registered);
  }
}
