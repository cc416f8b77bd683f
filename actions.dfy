/** How the viewer turns an action tuple into the line shown in its action
    log (`format_action` in gui.py). */
module Actions {
  import opened Values

  const ClaimRoute := Text("claim_route")
  const DrawTwoTrainCards := Text("draw_two_train_cards")
  const DrawDestinationTickets := Text("draw_destination_tickets")
  const Deck := Text("deck")

  /** Which message template the viewer fills in, with its arguments.  The
      text of a template is presentation; the choice and the arguments are
      the behaviour. */
  datatype Message =
    | NoAction                                                // "No action"
    | ClaimedRoute(player: Item, from: Item, to: Item, colour: Colour)
    | DrewWild(player: Item)                                  // "{p} drew 1 {WILD}"
    | DrewTwoFromDeck(player: Item)
    | DrewDeckAndCard(player: Item, card: Colour)
    | DrewCardAndDeck(player: Item, card: Colour)
    | DrewPair(player: Item, card: Colour)
    | DrewTwoCards(player: Item, first: Colour, second: Colour)
    | KeptTickets(player: Item, kept: Item)
    | Generic(player: Item, action: Action)                   // "{p}: {str(action)}"
    | Fallback(action: Action)                                // str(action) after an exception

  /** Python's binary `+` on two tuple elements: numbers add, strings
      concatenate, anything else raises (None). */
  function Plus(a: Item, b: Item): (r: Option<Item>)
    ensures r.Some? ==> (r.value.Num? <==> a.Num?)
    ensures r.Some? <==> (a.Num? && b.Num?) || (a.Text? && b.Text?)
  {
    if a.Num? && b.Num? then Some(Num(a.n + b.n))
    else if a.Text? && b.Text? then Some(Text(a.s + b.s))
    else None
  }

  /** `action[1] + action[2] + action[3]`, evaluated left to right. */
  function KeptCount(action: Action): Option<Item>
  {
    if |action| < 4 then None
    else match Plus(action[1], action[2])
      case None => None
      case Some(x) => Plus(x, action[3])
  }

  /** The two-card draw: `action[2]` and `action[4]` are the two cards, each
      either a colour or the word "deck"; a wild first card is reported before
      any of the deck cases. */
  function DrawTwoMessage(action: Action, player: Item): Message
    requires |action| >= 5
  {
    var card1, card2 := action[2], action[4];
    if card1 == Card(Wild) then DrewWild(player)
    else if card1 == Deck && card2 == Deck then DrewTwoFromDeck(player)
    else if card1 == Deck then
      (if card2.Card? then DrewDeckAndCard(player, card2.c) else Fallback(action))
    else if card2 == Deck then
      (if card1.Card? then DrewCardAndDeck(player, card1.c) else Fallback(action))
    else if card1 == card2 then
      (if card1.Card? then DrewPair(player, card1.c) else Fallback(action))
    else if card1.Card? && card2.Card? then DrewTwoCards(player, card1.c, card2.c)
    else Fallback(action)
  }

  /** `format_action`: dispatch on `action[0]`; the player is the last element.
      An element that is missing or of the wrong kind raises inside the
      source's try block, which then returns `str(action)` (Fallback). */
  function FormatAction(action: Action): (m: Message)
    ensures m == NoAction <==> action == []
    ensures action != [] && !m.Fallback? ==> m.player == action[|action| - 1]
    ensures m.Fallback? ==> m.action == action
    ensures m.ClaimedRoute? ==> |action| >= 4 && action[0] == ClaimRoute && action[3] == Card(m.colour) && m.from == action[1] && m.to == action[2]
    ensures action != [] && action[0] == ClaimRoute ==>
            if |action| >= 4 && action[3].Card?
            then m == ClaimedRoute(action[|action| - 1], action[1], action[2], action[3].c)
            else m == Fallback(action)
    ensures action != [] && action[0] == DrawTwoTrainCards && |action| < 5 ==> m == Fallback(action)
    ensures m.KeptTickets? ==> action[0] == DrawDestinationTickets && Some(m.kept) == KeptCount(action)
    ensures action != [] && action[0] == DrawDestinationTickets ==>
            if KeptCount(action).Some?
            then m == KeptTickets(action[|action| - 1], KeptCount(action).value)
            else m == Fallback(action)
    ensures action != [] && action[0] !in {ClaimRoute, DrawTwoTrainCards, DrawDestinationTickets}
            ==> m == Generic(action[|action| - 1], action)
  {
    if action == [] then NoAction
    else
      var kind, player := action[0], action[|action| - 1];
      if kind == ClaimRoute then
        if |action| >= 4 && action[3].Card? then ClaimedRoute(player, action[1], action[2], action[3].c)
        else Fallback(action)
      else if kind == DrawTwoTrainCards then
        if |action| >= 5 then DrawTwoMessage(action, player) else Fallback(action)
      else if kind == DrawDestinationTickets then
        match KeptCount(action)
        case Some(k) => KeptTickets(player, k)
        case None => Fallback(action)
      else Generic(player, action)
  }

  /** A two-card draw whose first card is wild reports the wild card whatever
      the second card is, "deck" included. */
  lemma WildFirstCardWins(action: Action)
    requires |action| >= 5 && action[0] == DrawTwoTrainCards && action[2] == Card(Wild)
    ensures FormatAction(action) == DrewWild(action[|action| - 1])
  {
  }

  /** Two cards from the deck are reported as such; a colour and the deck are
      reported in the order they were drawn. */
  lemma DeckDraws(action: Action, c: Colour)
    requires |action| >= 5 && action[0] == DrawTwoTrainCards
    ensures action[2] == Deck && action[4] == Deck ==> FormatAction(action) == DrewTwoFromDeck(action[|action| - 1])
    ensures action[2] == Deck && action[4] == Card(c) ==> FormatAction(action) == DrewDeckAndCard(action[|action| - 1], c)
    ensures c != Wild && action[2] == Card(c) && action[4] == Deck ==> FormatAction(action) == DrewCardAndDeck(action[|action| - 1], c)
  {
  }

  /** Two cards of the same (non-wild) colour are reported as a pair of
      that colour. */
  lemma SameColourPair(action: Action, c: Colour)
    requires |action| >= 5 && action[0] == DrawTwoTrainCards
    requires c != Wild && action[2] == Card(c) && action[4] == Card(c)
    ensures FormatAction(action) == DrewPair(action[|action| - 1], c)
  {
  }

  /** Two different colours, the first not wild, are reported one by one,
      in the order drawn. */
  lemma TwoColours(action: Action, c1: Colour, c2: Colour)
    requires |action| >= 5 && action[0] == DrawTwoTrainCards
    requires c1 != Wild && c1 != c2 && action[2] == Card(c1) && action[4] == Card(c2)
    ensures FormatAction(action) == DrewTwoCards(action[|action| - 1], c1, c2)
  {
  }

  /** A two-card draw falls back to the action itself exactly when its first
      card is not wild and one of the two cards is neither a colour nor
      "deck": reading `.value` of such a card raises inside the try block. */
  lemma MalformedCardDraw(action: Action)
    requires |action| >= 5 && action[0] == DrawTwoTrainCards
    ensures FormatAction(action) == Fallback(action) <==>
            action[2] != Card(Wild) &&
            (!(action[2].Card? || action[2] == Deck) || !(action[4].Card? || action[4] == Deck))
  {
  }

  /** Destination draws report the three kept counts added up. */
  lemma KeptTicketsIsSum(action: Action, a: int, b: int, c: int)
    requires |action| >= 4 && action[0] == DrawDestinationTickets
    requires action[1] == Num(a) && action[2] == Num(b) && action[3] == Num(c)
    ensures FormatAction(action) == KeptTickets(action[|action| - 1], Num(a + b + c))
  {
  }

  predicate IsCardDraw(m: Message)
  {
    m.DrewWild? || m.DrewTwoFromDeck? || m.DrewDeckAndCard? || m.DrewCardAndDeck? || m.DrewPair? || m.DrewTwoCards?
  }

  /** The kind of message determines the kind of action, so the log never
      reports one kind of move as another. */
  lemma {:induction false} MessageDeterminesKind(action: Action)
    ensures var m := FormatAction(action);
      (m.ClaimedRoute? ==> action[0] == ClaimRoute) &&
      (IsCardDraw(m) ==> action[0] == DrawTwoTrainCards && |action| >= 5) &&
      (m.KeptTickets? ==> action[0] == DrawDestinationTickets) &&
      (m.Generic? ==> action[0] !in {ClaimRoute, DrawTwoTrainCards, DrawDestinationTickets})
  {
    if action != [] && action[0] == DrawTwoTrainCards && |action| >= 5 {
      var m := DrawTwoMessage(action, action[|action| - 1]);
      assert !m.ClaimedRoute? && !m.KeptTickets? && !m.Generic?;
    }
  }
}
