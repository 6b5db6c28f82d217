/**
 * What a viewer holds after a whole stream of messages, handled one at a
 * time and in arrival order from a freshly mounted viewer.
 */
module History {
  import opened Shared
  import opened Sequences
  import opened OrderedMaps
  import opened Client

  /** The state after handling `messages` in order, starting from `s`. */
  function Run(s: ViewerState, messages: seq<OutgoingMessage>): (r: ViewerState)
    requires s.positions.Valid()
    ensures r.positions.Valid()
    decreases |messages|
  {
    if |messages| == 0 then s
    else Step(Run(s, messages[..|messages| - 1]), messages[|messages| - 1])
  }

  /** The last message of `messages` about participant `id`, if there is one. */
  function LastAbout(messages: seq<OutgoingMessage>, id: string): (r: Option<OutgoingMessage>)
    ensures r.Some? ==> r.value in messages && r.value.Subject() == id
    ensures r.None? ==> forall m :: m in messages ==> m.Subject() != id
    ensures r.Some? ==>
      exists i :: 0 <= i < |messages| && messages[i] == r.value &&
        (forall j :: i < j < |messages| ==> messages[j].Subject() != id)
    decreases |messages|
  {
    if |messages| == 0 then None
    else if messages[|messages| - 1].Subject() == id then Some(messages[|messages| - 1])
    else
      var r := LastAbout(messages[..|messages| - 1], id);
      assert messages == messages[..|messages| - 1] + [messages[|messages| - 1]];
      r
  }

  /** Last write wins: the marker of `id`'s last `add-marker`, unless a `remove-marker` came after it. */
  function Expected(messages: seq<OutgoingMessage>, id: string): Option<Marker>
  {
    match LastAbout(messages, id)
    case Some(AddMarker(p)) => Some(MarkerOf(p))
    case _ => None
  }

  /** What the replica's map holds for `id`, as an Option; used to state LastWriteWins. */
  function Lookup(m: OrderedMap<Marker>, id: string): Option<Marker>
  {
    if id in m.entries then Some(m.entries[id]) else None
  }

  /** How many `add-marker`s for `id` arrived since its last `remove-marker`. */
  function AddsSinceRemove(messages: seq<OutgoingMessage>, id: string): nat
    decreases |messages|
  {
    if |messages| == 0 then 0
    else
      var last := messages[|messages| - 1];
      if last.Subject() != id then AddsSinceRemove(messages[..|messages| - 1], id)
      else if last.AddMarker? then AddsSinceRemove(messages[..|messages| - 1], id) + 1
      else 0
  }

  /** How many panel lines show participant `id`. */
  function CountId(players: seq<PlayerInfo>, id: string): nat
  {
    if |players| == 0 then 0
    else (if players[0].id == id then 1 else 0) + CountId(players[1..], id)
  }

  lemma {:induction false} CountIdAppend(players: seq<PlayerInfo>, q: PlayerInfo, id: string)
    ensures CountId(players + [q], id) == CountId(players, id) + (if q.id == id then 1 else 0)
  {
    if |players| > 0 {
      assert (players + [q])[1..] == players[1..] + [q];
      CountIdAppend(players[1..], q, id);
    }
  }

  lemma {:induction false} CountIdWithout(players: seq<PlayerInfo>, removed: string, id: string)
    ensures CountId(WithoutPlayer(players, removed), id) == if removed == id then 0 else CountId(players, id)
  {
    if |players| > 0 {
      CountIdWithout(players[1..], removed, id);
      if players[0].id != removed {
        assert WithoutPlayer(players, removed) == [players[0]] + WithoutPlayer(players[1..], removed);
        assert ([players[0]] + WithoutPlayer(players[1..], removed))[1..] == WithoutPlayer(players[1..], removed);
      } else {
        assert WithoutPlayer(players, removed) == WithoutPlayer(players[1..], removed);
      }
    }
  }

  /** From any valid state, the panel's ids and the map's keys agree after every prefix of the stream. */
  lemma {:induction false} RunPreservesValid(s: ViewerState, messages: seq<OutgoingMessage>)
    requires s.Valid()
    ensures Run(s, messages).Valid()
    decreases |messages|
  {
    if |messages| > 0 {
      RunPreservesValid(s, messages[..|messages| - 1]);
      StepPreservesValid(Run(s, messages[..|messages| - 1]), messages[|messages| - 1]);
    }
  }

  /** A fresh viewer's panel lists exactly the ids its map holds, whatever the stream. */
  lemma AgreementFromStart(messages: seq<OutgoingMessage>)
    ensures Ids(Run(Initial(), messages).players) == Run(Initial(), messages).positions.entries.Keys
  {
    RunPreservesValid(Initial(), messages);
  }

  /**
   * A fresh viewer maps `id` to the marker of its last `add-marker` and holds
   * no entry for it when its last message was a `remove-marker` or when
   * there was none.
   */
  lemma {:induction false} LastWriteWins(messages: seq<OutgoingMessage>, id: string)
    ensures Lookup(Run(Initial(), messages).positions, id) == Expected(messages, id)
    decreases |messages|
  {
    if |messages| > 0 {
      LastWriteWins(messages[..|messages| - 1], id);
    }
  }

  /** A fresh viewer's key set is exactly the ids whose last message was an `add-marker`. */
  lemma LiveKeys(messages: seq<OutgoingMessage>, id: string)
    ensures id in Run(Initial(), messages).positions.entries <==>
      LastAbout(messages, id).Some? && LastAbout(messages, id).value.AddMarker?
  {
    LastWriteWins(messages, id);
  }

  /**
   * A fresh viewer lists `id` in its panel once per `add-marker` since the
   * id's last `remove-marker`: a duplicate add shows it twice.
   */
  lemma {:induction false} PanelCountsAdds(messages: seq<OutgoingMessage>, id: string)
    ensures CountId(Run(Initial(), messages).players, id) == AddsSinceRemove(messages, id)
    decreases |messages|
  {
    if |messages| > 0 {
      var prefix := messages[..|messages| - 1];
      var before := Run(Initial(), prefix);
      PanelCountsAdds(prefix, id);
      match messages[|messages| - 1]
      case AddMarker(p) =>
        CountIdAppend(before.players, PlayerOf(p), id);
      case RemoveMarker(removed) =>
        CountIdWithout(before.players, removed, id);
    }
  }

  /** Within one id, order matters: add, remove, add leaves it present; add, remove, remove leaves it absent. */
  lemma OrderWithinOneId(p: Position)
    ensures p.id in Run(Initial(), [AddMarker(p), RemoveMarker(p.id), AddMarker(p)]).positions.entries
    ensures p.id !in Run(Initial(), [AddMarker(p), RemoveMarker(p.id), RemoveMarker(p.id)]).positions.entries
  {
    LiveKeys([AddMarker(p), RemoveMarker(p.id), AddMarker(p)], p.id);
    LiveKeys([AddMarker(p), RemoveMarker(p.id), RemoveMarker(p.id)], p.id);
  }
}
