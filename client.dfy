/**
 * The viewer's replica of the presence set: the `onMessage` handler that
 * keeps the globe's marker map and the "online" player list, and the
 * per-frame snapshot of the marker map's values.
 */
module Client {
  import opened Shared
  import opened Sequences
  import opened OrderedMaps

  /** Every marker is drawn with this fixed size. */
  const MarkerSize: real := 0.09

  /** Shown for a city or country that is missing or empty. */
  const Unknown: string := "Unknown"

  /** What the globe draws for one participant: `{location: [lat, lng], size}`. */
  datatype Marker = Marker(location: (real, real), size: real)

  /** One line of the "online" panel. */
  datatype PlayerInfo = PlayerInfo(id: string, city: string, country: string)

  /** The marker stored for an added position: `{location: [lat, lng], size: 0.09}`. */
  function MarkerOf(p: Position): (m: Marker)
    ensures m.location.0 == p.lat && m.location.1 == p.lng
    ensures m.size == 0.09
  {
    Marker((p.lat, p.lng), MarkerSize)
  }

  /**
   * `field || "Unknown"`: an absent field and the empty string are both
   * falsy in JavaScript and fall back to "Unknown"; any other text is kept.
   */
  function OrUnknown(field: Option<string>): (r: string)
    ensures field.None? ==> r == Unknown
    ensures field == Some("") ==> r == Unknown
    ensures field.Some? && field.value != "" ==> r == field.value
    ensures r != ""
  {
    if field.Some? && field.value != "" then field.value else Unknown
  }

  /**
   * The panel entry listed for an added position: its id, and its city and
   * country when present and non-empty, "Unknown" otherwise.
   */
  function PlayerOf(p: Position): (r: PlayerInfo)
    ensures r.id == p.id
    ensures r.city != "" && r.country != ""
    ensures r.city == (if p.city.Some? && p.city.value != "" then p.city.value else Unknown)
    ensures r.country == (if p.country.Some? && p.country.value != "" then p.country.value else Unknown)
  {
    PlayerInfo(p.id, OrUnknown(p.city), OrUnknown(p.country))
  }

  /** The `setPlayers` updater of `add-marker`: `[...prev, entry]`. */
  function AppendPlayer(prev: seq<PlayerInfo>, p: Position): (r: seq<PlayerInfo>)
    ensures |r| == |prev| + 1
    ensures r[..|prev|] == prev
    ensures r[|prev|].id == p.id
    ensures r[|prev|].city == OrUnknown(p.city) && r[|prev|].country == OrUnknown(p.country)
  {
    prev + [PlayerOf(p)]
  }

  /** The `setPlayers` updater of `remove-marker`: `prev.filter(p => p.id !== id)`. */
  function WithoutPlayer(prev: seq<PlayerInfo>, id: string): (r: seq<PlayerInfo>)
    ensures forall q :: q in r ==> q in prev && q.id != id
    ensures forall q :: q in prev && q.id != id ==> multiset(r)[q] == multiset(prev)[q]
    ensures IsSubsequence(r, prev)
    ensures (forall q :: q in prev ==> q.id != id) ==> r == prev
  {
    Filter(prev, (q: PlayerInfo) => q.id != id)
  }

  /** The ids listed in the player panel. */
  function Ids(players: seq<PlayerInfo>): set<string>
  {
    set q | q in players :: q.id
  }

  /** The handler's whole state: the marker map and the player list. */
  datatype ViewerState = ViewerState(positions: OrderedMap<Marker>, players: seq<PlayerInfo>)
  {
    /** The map is well formed and the panel lists exactly the ids the map holds. */
    predicate Valid()
    {
      positions.Valid() && Ids(players) == positions.entries.Keys
    }
  }

  /** The state of a freshly mounted viewer. */
  function Initial(): (s: ViewerState)
    ensures s.Valid() && s.positions.entries == map[] && s.players == []
  {
    ViewerState(EmptyMap(), [])
  }

  /**
   * One call of `onMessage`. The handler tests only the `type` tag and
   * handles every message that is not an `add-marker` as a `remove-marker`.
   */
  function Step(s: ViewerState, message: OutgoingMessage): (r: ViewerState)
    requires s.positions.Valid()
    ensures r.positions.Valid()
  {
    if message.TypeTag() == AddMarkerTag then
      ViewerState(
        s.positions.Set(message.position.id, MarkerOf(message.position)),
        AppendPlayer(s.players, message.position))
    else
      ViewerState(
        s.positions.Delete(message.id),
        WithoutPlayer(s.players, message.id))
  }

  /** `add-marker` maps the id to `{location: [lat, lng], size: 0.09}` and leaves every other key alone. */
  lemma AddSetsMarker(s: ViewerState, p: Position)
    requires s.positions.Valid()
    ensures var m := Step(s, AddMarker(p)).positions.entries;
      p.id in m && m[p.id] == Marker((p.lat, p.lng), 0.09)
    ensures var m := Step(s, AddMarker(p)).positions.entries;
      forall k :: k != p.id ==> (k in m <==> k in s.positions.entries)
    ensures var m := Step(s, AddMarker(p)).positions.entries;
      forall k :: k != p.id && k in s.positions.entries ==> m[k] == s.positions.entries[k]
  {
  }

  /** An `add-marker` for a present id overwrites its entry: the map keeps its size and its order. */
  lemma DuplicateAddOverwrites(s: ViewerState, p: Position)
    requires s.positions.Valid() && p.id in s.positions.entries
    ensures Step(s, AddMarker(p)).positions.Size() == s.positions.Size()
    ensures Step(s, AddMarker(p)).positions.keys == s.positions.keys
  {
  }

  /** Two `add-marker`s for one id: the second position's location wins. */
  lemma LaterAddWins(s: ViewerState, p1: Position, p2: Position)
    requires s.positions.Valid() && p1.id == p2.id
    ensures Step(Step(s, AddMarker(p1)), AddMarker(p2)).positions.entries[p2.id].location == (p2.lat, p2.lng)
  {
  }

  /** `add-marker` appends exactly one entry at the end of the panel and keeps the earlier ones. */
  lemma AddAppendsPlayer(s: ViewerState, p: Position)
    requires s.positions.Valid()
    ensures Step(s, AddMarker(p)).players == s.players + [PlayerInfo(p.id, OrUnknown(p.city), OrUnknown(p.country))]
  {
  }

  /**
   * An `add-marker` for an id the replica already holds leaves the map with
   * one entry for it but lists it twice in the panel.
   */
  lemma {:induction false} DuplicateAddListsTwice(s: ViewerState, p: Position)
    requires s.Valid() && p.id in s.positions.entries
    ensures var r := Step(s, AddMarker(p));
      exists i, j :: 0 <= i < j < |r.players| && r.players[i].id == p.id && r.players[j].id == p.id
  {
    var r := Step(s, AddMarker(p));
    assert p.id in Ids(s.players);
    var q :| q in s.players && q.id == p.id;
    var i :| 0 <= i < |s.players| && s.players[i] == q;
    assert r.players[i] == q;
    assert r.players[|s.players|].id == p.id;
  }

  /** `remove-marker` drops the id from the map and leaves every other key alone. */
  lemma RemoveDeletesMarker(s: ViewerState, id: string)
    requires s.positions.Valid()
    ensures var m := Step(s, RemoveMarker(id)).positions.entries;
      id !in m && forall k :: k != id ==> (k in m <==> k in s.positions.entries)
    ensures var m := Step(s, RemoveMarker(id)).positions.entries;
      forall k :: k in m ==> m[k] == s.positions.entries[k]
  {
  }

  /**
   * `remove-marker` drops every panel entry with that id, keeps every other
   * entry as often as it was listed, and keeps their relative order.
   */
  lemma RemoveFiltersPlayers(s: ViewerState, id: string)
    requires s.positions.Valid()
    ensures var ps := Step(s, RemoveMarker(id)).players;
      forall q :: q in ps ==> q in s.players && q.id != id
    ensures var ps := Step(s, RemoveMarker(id)).players;
      forall q :: q in s.players && q.id != id ==> multiset(ps)[q] == multiset(s.players)[q]
    ensures IsSubsequence(Step(s, RemoveMarker(id)).players, s.players)
  {
  }

  /** A `remove-marker` for an id the replica does not hold changes nothing. */
  lemma StrayRemoveIsNoOp(s: ViewerState, id: string)
    requires s.Valid() && id !in s.positions.entries
    ensures Step(s, RemoveMarker(id)) == s
  {
  }

  /** Applying the same `remove-marker` twice is applying it once. */
  lemma RemoveIdempotent(s: ViewerState, id: string)
    requires s.positions.Valid()
    ensures Step(Step(s, RemoveMarker(id)), RemoveMarker(id)) == Step(s, RemoveMarker(id))
  {
  }

  /** The panel's ids and the map's keys agree after every message. */
  lemma StepPreservesValid(s: ViewerState, message: OutgoingMessage)
    requires s.Valid()
    ensures Step(s, message).Valid()
  {
  }

  /**
   * The viewer component. `positions` is the ref'd Map read by the globe on
   * every frame; `players` is the panel state, updated in message order.
   */
  class Viewer {
    var positions: OrderedMap<Marker>
    var players: seq<PlayerInfo>

    function State(): ViewerState
      reads this
    {
      ViewerState(positions, players)
    }

    ghost predicate Valid()
      reads this
    {
      State().Valid()
    }

    constructor ()
      ensures Valid() && State() == Initial()
    {
      positions := EmptyMap();
      players := [];
    }

    /** `onMessage` for one already decoded message. */
    method OnMessage(message: OutgoingMessage)
      requires Valid()
      modifies this
      ensures Valid()
      ensures State() == Step(old(State()), message)
    {
      StepPreservesValid(State(), message);
      if message.TypeTag() == AddMarkerTag {
        var p := message.position;
        positions := positions.Set(p.id, MarkerOf(p));
        players := AppendPlayer(players, p);
      } else {
        positions := positions.Delete(message.id);
        players := WithoutPlayer(players, message.id);
      }
    }

    /**
     * `[...positions.current.values()]`: a fresh sequence holding the value
     * of every key once, in the map's iteration order. It changes nothing.
     */
    method Snapshot() returns (markers: seq<Marker>)
      requires Valid()
      ensures markers == positions.Values()
      ensures |markers| == |positions.entries|
      ensures forall m :: m in markers ==> m in positions.entries.Values
      ensures forall m :: m in positions.entries.Values ==> m in markers
    {
      markers := [];
      var i := 0;
      while i < |positions.keys|
        invariant 0 <= i <= |positions.keys|
        invariant |markers| == i
        invariant forall j :: 0 <= j < i ==> markers[j] == positions.entries[positions.keys[j]]
      {
        markers := markers + [positions.entries[positions.keys[i]]];
        i := i + 1;
      }
    }
  }
}
