/**
 * The view-model logic of `HomeAssistantTUI` without its widgets: which
 * entities a filter admits, the rows of the entity table and their order,
 * the filter-bar counts, the interpretation of a command line, favourite
 * toggling and the updates of the entity cache.
 */
module AppView {
  import opened Wrappers
  import opened Json
  import opened Strings
  import HassApi

  datatype FilterMode = All | Favorites | Lights | Climate | Switches
  datatype GroupMode = FavoritesFirst | Type | Room | State

  // ------------------------------------------------------------ entity cache

  /** `entity_id.startswith(tuple(f"{d}." for d in domains))` */
  predicate Allowed(entityId: string, domains: seq<string>)
  {
    exists i :: 0 <= i < |domains| && StartsWith(entityId, domains[i] + ".")
  }

  predicate Distinct(order: seq<string>)
  {
    forall i, j :: 0 <= i < j < |order| ==> order[i] != order[j]
  }

  /**
   * A Python dict as the order of its keys and the mapping: the order lists
   * each key once, in insertion order.
   */
  ghost predicate OrderedDict(order: seq<string>, entries: map<string, Value>)
  {
    Distinct(order) && (forall id :: id in entries <==> id in order)
  }

  /** `d[key] = value`: a new key goes to the end, an existing key keeps its place. */
  function Put(order: seq<string>, entries: map<string, Value>, key: string, value: Value): (r: (seq<string>, map<string, Value>))
    requires OrderedDict(order, entries)
    ensures OrderedDict(r.0, r.1)
    ensures r.1 == entries[key := value]
    ensures key in entries ==> r.0 == order
    ensures key !in entries ==> r.0 == order + [key]
  {
    if key in entries then (order, entries[key := value]) else (order + [key], entries[key := value])
  }

  /** The Python `str` held under `entity_id`, if the lookup and the `startswith` call do not raise. */
  function EntityIdText(state: Value): Option<string>
  {
    match HassApi.EntityIdOf(state)
    case Some(Str(id)) => Some(id)
    case _ => None
  }

  /**
   * The dict comprehension of `action_refresh` over the `states` list:
   * None when `state["entity_id"]` or its `startswith` raised, which leaves
   * the cache as it was.
   */
  function FilterToDomains(states: seq<Value>, domains: seq<string>): (r: Option<(seq<string>, map<string, Value>)>)
    ensures r.Some? ==> OrderedDict(r.value.0, r.value.1)
    ensures r.Some? ==> forall id :: id in r.value.1 ==> Allowed(id, domains) && EntityIdText(r.value.1[id]) == Some(id)
    ensures r.Some? <==> forall i :: 0 <= i < |states| ==> EntityIdText(states[i]).Some?
  {
    if states == [] then Some(([], map[]))
    else
      var last := states[|states| - 1];
      var prefix := FilterToDomains(states[..|states| - 1], domains);
      assert forall i :: 0 <= i < |states| - 1 ==> states[..|states| - 1][i] == states[i];
      match (prefix, EntityIdText(last))
      case (Some((order, entries)), Some(id)) =>
        if Allowed(id, domains) then Some(Put(order, entries, id, last)) else prefix
      case _ => None
  }

  /** A kept state is the last one with its id; an allowed id is always kept. */
  lemma {:induction false} FilterToDomainsKeepsLast(states: seq<Value>, domains: seq<string>, i: int)
    requires FilterToDomains(states, domains).Some?
    requires 0 <= i < |states| && Allowed(EntityIdText(states[i]).value, domains)
    requires forall j :: i < j < |states| ==> EntityIdText(states[j]) != EntityIdText(states[i])
    ensures EntityIdText(states[i]).value in FilterToDomains(states, domains).value.1
    ensures FilterToDomains(states, domains).value.1[EntityIdText(states[i]).value] == states[i]
  {
    var prefix := states[..|states| - 1];
    if i < |states| - 1 {
      assert prefix[i] == states[i];
      assert forall j :: i < j < |prefix| ==> prefix[j] == states[j];
      assert FilterToDomains(prefix, domains).Some? by {
        assert forall j :: 0 <= j < |prefix| ==> prefix[j] == states[j];
      }
      FilterToDomainsKeepsLast(prefix, domains, i);
    }
  }

  /** An id that does not carry an allowed domain prefix is never cached. */
  lemma {:induction false} FilterToDomainsDropsOthers(states: seq<Value>, domains: seq<string>, id: string)
    requires FilterToDomains(states, domains).Some? && !Allowed(id, domains)
    ensures id !in FilterToDomains(states, domains).value.1
  {
  }

  /** The index of the first state whose `entity_id` is `entityId`, or `|states|` when there is none. */
  function FirstIndex(states: seq<Value>, entityId: string): (p: nat)
    ensures p <= |states|
    ensures p < |states| ==> EntityIdText(states[p]) == Some(entityId)
    ensures forall q :: 0 <= q < p ==> EntityIdText(states[q]) != Some(entityId)
  {
    if states == [] then 0
    else if EntityIdText(states[0]) == Some(entityId) then 0
    else
      var p := 1 + FirstIndex(states[1..], entityId);
      assert forall q :: 1 <= q < p ==> states[q] == states[1..][q - 1];
      p
  }

  /** Appending a state does not move an id's first occurrence, and a new id first occurs at the end. */
  lemma FirstIndexAppend(states: seq<Value>, last: Value, entityId: string)
    ensures FirstIndex(states, entityId) < |states| ==> FirstIndex(states + [last], entityId) == FirstIndex(states, entityId)
    ensures FirstIndex(states, entityId) == |states| ==> FirstIndex(states + [last], entityId) >= |states|
  {
    var p := FirstIndex(states, entityId);
    if p < |states| {
      assert (states + [last])[p] == states[p];
    }
    assert forall q :: 0 <= q < |states| ==> (states + [last])[q] == states[q];
  }

  /** Every state with an allowed id has that id cached. */
  lemma {:induction false} FilterToDomainsKeepsAllowed(states: seq<Value>, domains: seq<string>, i: int)
    requires FilterToDomains(states, domains).Some?
    requires 0 <= i < |states| && Allowed(EntityIdText(states[i]).value, domains)
    ensures EntityIdText(states[i]).value in FilterToDomains(states, domains).value.1
  {
    var prefix := states[..|states| - 1];
    if i < |states| - 1 {
      assert prefix[i] == states[i];
      assert FilterToDomains(prefix, domains).Some? by {
        assert forall j :: 0 <= j < |prefix| ==> prefix[j] == states[j];
      }
      FilterToDomainsKeepsAllowed(prefix, domains, i);
    }
  }

  /**
   * The cache keys come in insertion order: each key first occurs among the
   * states, and a key listed earlier first occurs earlier.
   */
  lemma {:induction false} FilterToDomainsInsertionOrder(states: seq<Value>, domains: seq<string>)
    requires FilterToDomains(states, domains).Some?
    ensures var order := FilterToDomains(states, domains).value.0;
      && (forall k :: 0 <= k < |order| ==> FirstIndex(states, order[k]) < |states|)
      && (forall i, j :: 0 <= i < j < |order| ==> FirstIndex(states, order[i]) < FirstIndex(states, order[j]))
  {
    if states != [] {
      var last := states[|states| - 1];
      var prefix := states[..|states| - 1];
      assert states == prefix + [last];
      assert FilterToDomains(prefix, domains).Some? by {
        assert forall j :: 0 <= j < |prefix| ==> prefix[j] == states[j];
      }
      FilterToDomainsInsertionOrder(prefix, domains);
      var (before, entries) := FilterToDomains(prefix, domains).value;
      var order := FilterToDomains(states, domains).value.0;
      forall k | 0 <= k < |before|
        ensures FirstIndex(states, before[k]) == FirstIndex(prefix, before[k]) < |prefix|
      {
        FirstIndexAppend(prefix, last, before[k]);
      }
      var id := EntityIdText(last).value;
      if Allowed(id, domains) && id !in entries {
        assert order == before + [id];
        FirstIndexAppend(prefix, last, id);
        if FirstIndex(prefix, id) < |prefix| {
          var p := FirstIndex(prefix, id);
          FilterToDomainsKeepsAllowed(prefix, domains, p);
          assert false;
        }
        assert FirstIndex(states, id) == |prefix|;
      } else {
        assert order == before;
      }
    }
  }

  /**
   * `_on_state_changed(event)`: the cache write it performs, if any. Nothing
   * is written when `data`, `entity_id` or `new_state` is missing or falsy,
   * or the id lacks an allowed prefix; a non-dict `event` or `data`, or a
   * non-string id, raises before the write.
   */
  function CacheUpdate(event: Value, domains: seq<string>): (r: Option<(string, Value)>)
    ensures r.Some? ==> Allowed(r.value.0, domains) && r.value.0 != [] && Truthy(r.value.1)
    ensures r.Some? ==>
      && event.Dict? && "data" in event.fields && event.fields["data"].Dict?
      && Get(event.fields["data"].fields, "entity_id") == Str(r.value.0)
      && Get(event.fields["data"].fields, "new_state") == r.value.1
    ensures event.Dict? && "data" in event.fields && event.fields["data"].Dict? ==>
      var entityId := Get(event.fields["data"].fields, "entity_id");
      var newState := Get(event.fields["data"].fields, "new_state");
      (entityId.Str? && entityId.s != [] && Truthy(newState) && Allowed(entityId.s, domains) ==>
        r == Some((entityId.s, newState)))
  {
    if !event.Dict? then None
    else
      var data := if "data" in event.fields then event.fields["data"] else Dict(map[]);
      if !data.Dict? then None
      else
        var entityId := Get(data.fields, "entity_id");
        var newState := Get(data.fields, "new_state");
        if !Truthy(entityId) || !Truthy(newState) then None
        else if entityId.Str? && Allowed(entityId.s, domains) then Some((entityId.s, newState))
        else None
  }

  /** A `state_changed` event for an allowed entity with a truthy new state is written to the cache. */
  lemma StateChangedEventIsCached(entityId: string, newState: Value, domains: seq<string>)
    requires Allowed(entityId, domains) && entityId != [] && Truthy(newState)
    ensures var data := Dict(map["entity_id" := Str(entityId), "new_state" := newState]);
      CacheUpdate(Dict(map["event_type" := Str("state_changed"), "data" := data]), domains) == Some((entityId, newState))
  {
  }

  /**
   * What `table.update_cell(entity_id, "State", new_state["state"])` did. The
   * table widget is not part of this model: the outcome is an input.
   */
  datatype CellUpdate = Updated | RaisedKeyError | RaisedOther

  /**
   * Control reaches the selection check after the cache write: `new_state["state"]`
   * raised no TypeError (the state is a dict), and either that lookup raised the
   * caught KeyError or `update_cell` returned or raised a KeyError.
   */
  predicate ReachesSelectionCheck(newState: Value, cell: CellUpdate)
  {
    newState.Dict? && ("state" in newState.fields ==> !cell.RaisedOther?)
  }

  /**
   * After the cache write, `selected_entity` follows the new state when it
   * is the same entity, unless an exception escaped before the check.
   */
  function SelectionAfter(selected: Option<Value>, entityId: string, newState: Value, cell: CellUpdate): (r: Option<Value>)
    ensures r == selected || r == Some(newState)
    ensures r != selected ==> ReachesSelectionCheck(newState, cell) && selected.Some? && HassApi.IsEntity(selected.value, entityId)
    ensures ReachesSelectionCheck(newState, cell) && selected.Some? && HassApi.IsEntity(selected.value, entityId) ==> r == Some(newState)
  {
    if !newState.Dict? then selected                                      // TypeError escapes
    else if "state" in newState.fields && cell.RaisedOther? then selected  // not a KeyError: escapes
    else if selected.Some? && Truthy(selected.value) && HassApi.IsEntity(selected.value, entityId) then Some(newState)
    else selected
  }

  // ------------------------------------------------------------ filtering

  /** The filter-mode test of `_get_filtered_entities`. */
  predicate PassesFilter(filter: FilterMode, entityId: string, favorites: set<string>)
  {
    match filter
    case All => true
    case Favorites => entityId in favorites
    case Lights => StartsWith(entityId, "light.")
    case Climate => StartsWith(entityId, "climate.")
    case Switches => StartsWith(entityId, "switch.")
  }

  /** The search test: an empty term admits everything, otherwise a case-insensitive substring test. */
  predicate MatchesSearch(searchTerm: string, entityId: string)
  {
    searchTerm == [] || Contains(Lower(entityId), Lower(searchTerm))
  }

  predicate Admits(filter: FilterMode, searchTerm: string, favorites: set<string>, entityId: string)
  {
    PassesFilter(filter, entityId, favorites) && MatchesSearch(searchTerm, entityId)
  }

  /** A row of the entity table: `(entity_id, state, domain, is_favorite, fav_marker)`. */
  datatype Row = Row(entityId: string, state: string, domain: string, isFavorite: bool, marker: string)

  const Star: string := "\U{2605}"

  /** `state["state"]`: None where the lookup raises. */
  function StateText(state: Value): Option<string>
  {
    if state.Dict? && "state" in state.fields && state.fields["state"].Str? then Some(state.fields["state"].s) else None
  }

  function MakeRow(entityId: string, state: string, favorites: set<string>): (row: Row)
    ensures row.entityId == entityId && row.state == state
    ensures StartsWith(entityId, row.domain) && '.' !in row.domain
    ensures |row.domain| < |entityId| ==> entityId[|row.domain|] == '.'
    ensures row.isFavorite <==> entityId in favorites
    ensures row.marker == (if entityId in favorites then Star else "")
  {
    var favorite := entityId in favorites;
    Row(entityId, state, BeforeFirst(entityId, '.'), favorite, if favorite then Star else "")
  }

  /** A state lookup failed for this admitted entity. */
  datatype RowError = MissingState(entityId: string)

  function IdsOf(rows: seq<Row>): (ids: seq<string>)
    ensures |ids| == |rows| && forall k :: 0 <= k < |rows| ==> ids[k] == rows[k].entityId
  {
    if rows == [] then [] else IdsOf(rows[..|rows| - 1]) + [rows[|rows| - 1].entityId]
  }

  /** `row` is the table row of an admitted entity of the cache. */
  predicate RowOf(row: Row, order: seq<string>, entries: map<string, Value>, filter: FilterMode, searchTerm: string, favorites: set<string>)
  {
    && row.entityId in order
    && Admits(filter, searchTerm, favorites, row.entityId)
    && row.entityId in entries
    && StateText(entries[row.entityId]) == Some(row.state)
    && row == MakeRow(row.entityId, row.state, favorites)
  }

  /**
   * `_get_filtered_entities()` over the cache, taken in its key order: the
   * rows of the admitted entities, or the first admitted entity whose state
   * lookup raised.
   */
  function FilteredRows(order: seq<string>, entries: map<string, Value>, filter: FilterMode, searchTerm: string, favorites: set<string>): (r: Result<seq<Row>, RowError>)
    requires forall id :: id in order ==> id in entries
    ensures r.Ok? ==> forall k :: 0 <= k < |r.value| ==> RowOf(r.value[k], order, entries, filter, searchTerm, favorites)
    ensures r.Err? ==>
      && r.error.entityId in order
      && Admits(filter, searchTerm, favorites, r.error.entityId)
      && StateText(entries[r.error.entityId]).None?
  {
    if order == [] then Ok([])
    else
      var id := order[|order| - 1];
      var prefix := order[..|order| - 1];
      assert order == prefix + [id];
      var rest := FilteredRows(prefix, entries, filter, searchTerm, favorites);
      if rest.Err? then rest
      else if !Admits(filter, searchTerm, favorites, id) then
        assert forall k :: 0 <= k < |rest.value| ==> rest.value[k].entityId in order;
        rest
      else match StateText(entries[id])
        case None => Err(MissingState(id))
        case Some(state) =>
          var rows := rest.value + [MakeRow(id, state, favorites)];
          assert forall k :: 0 <= k < |rest.value| ==> rows[k] == rest.value[k] && rows[k].entityId in order;
          Ok(rows)
  }

  /** Every admitted entity gets a row unless some admitted entity has no state, and then there is an error. */
  lemma {:induction false} FilteredRowsComplete(order: seq<string>, entries: map<string, Value>, filter: FilterMode, searchTerm: string, favorites: set<string>)
    requires forall id :: id in order ==> id in entries
    ensures var r := FilteredRows(order, entries, filter, searchTerm, favorites);
      && (r.Ok? <==> forall id :: id in order && Admits(filter, searchTerm, favorites, id) ==> StateText(entries[id]).Some?)
      && (r.Ok? ==> forall id :: id in order && Admits(filter, searchTerm, favorites, id) ==> id in IdsOf(r.value))
      && (r.Ok? ==> |r.value| <= |order|)
  {
    if order != [] {
      var id := order[|order| - 1];
      var prefix := order[..|order| - 1];
      assert order == prefix + [id];
      FilteredRowsComplete(prefix, entries, filter, searchTerm, favorites);
      var rest := FilteredRows(prefix, entries, filter, searchTerm, favorites);
      var r := FilteredRows(order, entries, filter, searchTerm, favorites);
      if rest.Ok? && r.Ok? && Admits(filter, searchTerm, favorites, id) {
        var state := StateText(entries[id]).value;
        assert r.value == rest.value + [MakeRow(id, state, favorites)];
        assert IdsOf(r.value) == IdsOf(rest.value) + [id];
      } else if rest.Ok? && r.Err? {
        assert StateText(entries[id]).None?;
      } else if rest.Err? {
        var bad := rest.error.entityId;
        assert bad in order && Admits(filter, searchTerm, favorites, bad) && StateText(entries[bad]).None?;
      }
    }
  }

  /** A cache whose key order lists each key once gives a table that shows each entity once. */
  lemma {:induction false} FilteredRowsDistinct(order: seq<string>, entries: map<string, Value>, filter: FilterMode, searchTerm: string, favorites: set<string>)
    requires forall id :: id in order ==> id in entries
    requires Distinct(order)
    requires FilteredRows(order, entries, filter, searchTerm, favorites).Ok?
    ensures Distinct(IdsOf(FilteredRows(order, entries, filter, searchTerm, favorites).value))
  {
    if order != [] {
      var id := order[|order| - 1];
      var prefix := order[..|order| - 1];
      assert order == prefix + [id];
      assert Distinct(prefix) by {
        forall i, j | 0 <= i < j < |prefix| ensures prefix[i] != prefix[j] {
          assert prefix[i] == order[i] && prefix[j] == order[j];
        }
      }
      var rest := FilteredRows(prefix, entries, filter, searchTerm, favorites);
      var r := FilteredRows(order, entries, filter, searchTerm, favorites);
      FilteredRowsDistinct(prefix, entries, filter, searchTerm, favorites);
      if Admits(filter, searchTerm, favorites, id) {
        var state := StateText(entries[id]).value;
        assert r.value == rest.value + [MakeRow(id, state, favorites)];
        assert IdsOf(r.value) == IdsOf(rest.value) + [id];
        assert id !in prefix;
        assert forall k :: 0 <= k < |rest.value| ==> IdsOf(rest.value)[k] in prefix by {
          forall k | 0 <= k < |rest.value| ensures IdsOf(rest.value)[k] in prefix {
            assert RowOf(rest.value[k], prefix, entries, filter, searchTerm, favorites);
          }
        }
      }
    }
  }

  // ------------------------------------------------------------ ordering

  /** `key(a) <= key(b)` for the sort key of each group mode. */
  predicate KeyLe(group: GroupMode, a: Row, b: Row)
  {
    match group
    case FavoritesFirst =>
      // key (not is_favorite, entity_id): False sorts before True
      if a.isFavorite != b.isFavorite then a.isFavorite else LexLe(a.entityId, b.entityId)
    case Type => if a.domain != b.domain then LexLe(a.domain, b.domain) else LexLe(a.entityId, b.entityId)
    case State => if a.state != b.state then LexLe(a.state, b.state) else LexLe(a.entityId, b.entityId)
    case Room => LexLe(a.entityId, b.entityId)
  }

  lemma KeyLeTotal(group: GroupMode, a: Row, b: Row)
    ensures KeyLe(group, a, b) || KeyLe(group, b, a)
  {
    LexLeTotal(a.entityId, b.entityId);
    LexLeTotal(a.domain, b.domain);
    LexLeTotal(a.state, b.state);
  }

  lemma KeyLeTransitive(group: GroupMode, a: Row, b: Row, c: Row)
    requires KeyLe(group, a, b) && KeyLe(group, b, c)
    ensures KeyLe(group, a, c)
  {
    match group
    case FavoritesFirst =>
      if a.isFavorite == b.isFavorite == c.isFavorite {
        LexLeTransitive(a.entityId, b.entityId, c.entityId);
      }
    case Type =>
      if a.domain == b.domain == c.domain {
        LexLeTransitive(a.entityId, b.entityId, c.entityId);
      } else if a.domain == b.domain {
      } else if b.domain == c.domain {
      } else {
        LexLeTransitive(a.domain, b.domain, c.domain);
        if a.domain == c.domain {
          LexLeAntisymmetric(a.domain, b.domain);
        }
      }
    case State =>
      if a.state == b.state == c.state {
        LexLeTransitive(a.entityId, b.entityId, c.entityId);
      } else if a.state == b.state {
      } else if b.state == c.state {
      } else {
        LexLeTransitive(a.state, b.state, c.state);
        if a.state == c.state {
          LexLeAntisymmetric(a.state, b.state);
        }
      }
    case Room =>
      LexLeTransitive(a.entityId, b.entityId, c.entityId);
  }

  predicate Sorted(group: GroupMode, rows: seq<Row>)
  {
    forall i, j :: 0 <= i < j < |rows| ==> KeyLe(group, rows[i], rows[j])
  }

  /** Insert `row` before the first element it does not sort after. */
  function Insert(group: GroupMode, row: Row, rows: seq<Row>): (r: seq<Row>)
    requires Sorted(group, rows)
    ensures multiset(r) == multiset(rows) + multiset{row}
    ensures Sorted(group, r)
  {
    if rows == [] then [row]
    else if KeyLe(group, row, rows[0]) then
      assert forall j :: 0 < j < |rows| ==> KeyLe(group, row, rows[j]) by {
        forall j | 0 < j < |rows| ensures KeyLe(group, row, rows[j]) {
          KeyLeTransitive(group, row, rows[0], rows[j]);
        }
      }
      [row] + rows
    else
      KeyLeTotal(group, row, rows[0]);
      var tail := Insert(group, row, rows[1..]);
      assert rows == [rows[0]] + rows[1..];
      assert forall x :: x in tail ==> x == row || x in rows[1..] by {
        forall x | x in tail ensures x == row || x in rows[1..] {
          assert x in multiset(tail);
        }
      }
      assert forall j :: 0 <= j < |tail| ==> KeyLe(group, rows[0], tail[j]) by {
        forall j | 0 <= j < |tail| ensures KeyLe(group, rows[0], tail[j]) {
          assert tail[j] in tail;
          if tail[j] != row {
            var k :| 0 <= k < |rows[1..]| && rows[1..][k] == tail[j];
            assert rows[k + 1] == tail[j];
          }
        }
      }
      [rows[0]] + tail
  }

  /**
   * `sorted(entities, key=...)` for the current group mode. Python's sort is
   * stable; every key here ends with the entity id, which is unique in the
   * table, so the order it produces is the one sorted order.
   */
  function SortEntities(group: GroupMode, rows: seq<Row>): (r: seq<Row>)
    ensures multiset(r) == multiset(rows)
    ensures Sorted(group, r)
  {
    if rows == [] then []
    else
      assert rows == [rows[0]] + rows[1..];
      Insert(group, rows[0], SortEntities(group, rows[1..]))
  }

  /** Under FAVORITES_FIRST every favourite comes before every other row, each part ascending by id. */
  lemma FavoritesComeFirst(rows: seq<Row>, i: int, j: int)
    requires 0 <= i < j < |SortEntities(FavoritesFirst, rows)|
    ensures var r := SortEntities(FavoritesFirst, rows);
      && (r[j].isFavorite ==> r[i].isFavorite)
      && (r[i].isFavorite == r[j].isFavorite ==> LexLe(r[i].entityId, r[j].entityId))
  {
  }

  /** Two sorted arrangements of the same rows with distinct ids are the same sequence. */
  lemma {:induction false} SortedIsUnique(group: GroupMode, a: seq<Row>, b: seq<Row>)
    requires multiset(a) == multiset(b) && Sorted(group, a) && Sorted(group, b)
    requires Distinct(IdsOf(a))
    ensures a == b
    decreases |a|
  {
    if a != [] {
      SortedSameHead(group, a, b);
      SameTails(a, b);
      assert Sorted(group, a[1..]) && Sorted(group, b[1..]);
      assert Distinct(IdsOf(a[1..])) by {
        assert forall k :: 0 <= k < |a| - 1 ==> IdsOf(a[1..])[k] == IdsOf(a)[k + 1];
      }
      SortedIsUnique(group, a[1..], b[1..]);
    }
  }

  lemma SameTails(a: seq<Row>, b: seq<Row>)
    requires multiset(a) == multiset(b) && a != [] && b != [] && a[0] == b[0]
    ensures multiset(a[1..]) == multiset(b[1..])
  {
    assert a == [a[0]] + a[1..] && b == [b[0]] + b[1..];
    assert multiset(a[1..]) == multiset(a) - multiset{a[0]};
    assert multiset(b[1..]) == multiset(b) - multiset{b[0]};
  }

  /** The least row is the same in both arrangements. */
  lemma SortedSameHead(group: GroupMode, a: seq<Row>, b: seq<Row>)
    requires multiset(a) == multiset(b) && Sorted(group, a) && Sorted(group, b)
    requires a != [] && Distinct(IdsOf(a))
    ensures b != [] && a[0] == b[0]
  {
    assert a[0] in multiset(b);
    assert b[0] in multiset(a);
    var i :| 0 <= i < |b| && b[i] == a[0];
    var j :| 0 <= j < |a| && a[j] == b[0];
    if a[0] != b[0] {
      assert KeyLe(group, a[0], a[j]) && KeyLe(group, b[0], b[i]);
      KeyLeAntisymmetric(group, a[0], b[0]);
      assert false;
    }
  }

  /** Rows that compare both ways have the same entity id. */
  lemma KeyLeAntisymmetric(group: GroupMode, a: Row, b: Row)
    requires KeyLe(group, a, b) && KeyLe(group, b, a)
    ensures a.entityId == b.entityId
  {
    match group
    case FavoritesFirst => LexLeAntisymmetric(a.entityId, b.entityId);
    case Type =>
      if a.domain != b.domain {
        LexLeAntisymmetric(a.domain, b.domain);
      } else {
        LexLeAntisymmetric(a.entityId, b.entityId);
      }
    case State =>
      if a.state != b.state {
        LexLeAntisymmetric(a.state, b.state);
      } else {
        LexLeAntisymmetric(a.entityId, b.entityId);
      }
    case Room => LexLeAntisymmetric(a.entityId, b.entityId);
  }

  // ------------------------------------------------------------ counts

  datatype Counts = Counts(all: nat, favorites: nat, lights: nat, climate: nat, switches: nat)

  /** The test of one `sum(1 for e in self.entities if ...)` generator. */
  datatype KeyTest = IsFavorite | HasPrefix(prefix: string)

  predicate Passes(test: KeyTest, entityId: string, favorites: set<string>)
  {
    match test
    case IsFavorite => entityId in favorites
    case HasPrefix(prefix) => StartsWith(entityId, prefix)
  }

  /** `sum(1 for e in self.entities if test(e))`, iterating the cache in its key order. */
  function CountKeys(order: seq<string>, test: KeyTest, favorites: set<string>): (n: nat)
    ensures n <= |order|
    ensures n == 0 <==> forall i :: 0 <= i < |order| ==> !Passes(test, order[i], favorites)
  {
    if order == [] then 0
    else
      var rest := CountKeys(order[..|order| - 1], test, favorites);
      assert forall i :: 0 <= i < |order| - 1 ==> order[..|order| - 1][i] == order[i];
      if Passes(test, order[|order| - 1], favorites) then rest + 1 else rest
  }

  /** The `counts` dict `_update_filter_counts` hands to the filter bar. */
  function FilterCounts(order: seq<string>, favorites: set<string>): (c: Counts)
    ensures c.all == |order|
    ensures c.favorites <= c.all && c.lights <= c.all && c.climate <= c.all && c.switches <= c.all
  {
    Counts(|order|,
           CountKeys(order, IsFavorite, favorites),
           CountKeys(order, HasPrefix("light."), favorites),
           CountKeys(order, HasPrefix("climate."), favorites),
           CountKeys(order, HasPrefix("switch."), favorites))
  }

  function WithPrefix(keys: set<string>, prefix: string): set<string>
  {
    set id | id in keys && StartsWith(id, prefix)
  }

  /** Over a key order that lists each key once, a generator count is the size of the set of keys that pass. */
  lemma {:induction false} CountKeysIsCardinality(order: seq<string>, test: KeyTest, favorites: set<string>)
    requires Distinct(order)
    ensures CountKeys(order, test, favorites) == |set id | id in order && Passes(test, id, favorites)|
  {
    if order != [] {
      var id := order[|order| - 1];
      var prefix := order[..|order| - 1];
      assert order == prefix + [id];
      assert Distinct(prefix) by {
        forall i, j | 0 <= i < j < |prefix| ensures prefix[i] != prefix[j] {
          assert prefix[i] == order[i] && prefix[j] == order[j];
        }
      }
      CountKeysIsCardinality(prefix, test, favorites);
      var before := set x | x in prefix && Passes(test, x, favorites);
      var after := set x | x in order && Passes(test, x, favorites);
      assert id !in prefix;
      if Passes(test, id, favorites) {
        assert after == before + {id};
      } else {
        assert after == before;
      }
    }
  }

  /**
   * The filter-bar counts of the cache are the number of cached entities,
   * of cached favourites and of cached ids with each domain prefix.
   */
  lemma FilterCountsAreCardinalities(order: seq<string>, entries: map<string, Value>, favorites: set<string>)
    requires OrderedDict(order, entries)
    ensures var c := FilterCounts(order, favorites);
      && c.all == |entries.Keys|
      && c.favorites == |entries.Keys * favorites|
      && c.lights == |WithPrefix(entries.Keys, "light.")|
      && c.climate == |WithPrefix(entries.Keys, "climate.")|
      && c.switches == |WithPrefix(entries.Keys, "switch.")|
  {
    DistinctCardinality(order);
    assert (set k | 0 <= k < |order| :: order[k]) == entries.Keys;
    CountKeysIsCardinality(order, IsFavorite, favorites);
    assert (set id | id in order && Passes(IsFavorite, id, favorites)) == entries.Keys * favorites;
    PrefixCount(order, entries, favorites, "light.");
    PrefixCount(order, entries, favorites, "climate.");
    PrefixCount(order, entries, favorites, "switch.");
  }

  lemma PrefixCount(order: seq<string>, entries: map<string, Value>, favorites: set<string>, prefix: string)
    requires OrderedDict(order, entries)
    ensures CountKeys(order, HasPrefix(prefix), favorites) == |WithPrefix(entries.Keys, prefix)|
  {
    CountKeysIsCardinality(order, HasPrefix(prefix), favorites);
    assert (set id | id in order && Passes(HasPrefix(prefix), id, favorites)) == WithPrefix(entries.Keys, prefix);
  }

  /** No id starts with two of `light.`, `climate.` and `switch.`. */
  lemma AtMostOneDomain(entityId: string)
    ensures !(StartsWith(entityId, "light.") && StartsWith(entityId, "climate."))
    ensures !(StartsWith(entityId, "light.") && StartsWith(entityId, "switch."))
    ensures !(StartsWith(entityId, "climate.") && StartsWith(entityId, "switch."))
  {
    if StartsWith(entityId, "light.") { assert entityId[0] == "light."[0] == 'l'; }
    if StartsWith(entityId, "climate.") { assert entityId[0] == "climate."[0] == 'c'; }
  }

  /** The three domain counts together are at most `all`: no entity is counted in two domains. */
  lemma {:induction false} CountsBounded(order: seq<string>, favorites: set<string>)
    ensures var c := FilterCounts(order, favorites);
      c.lights + c.climate + c.switches <= c.all
  {
    if order != [] {
      var prefix := order[..|order| - 1];
      CountsBounded(prefix, favorites);
      AtMostOneDomain(order[|order| - 1]);
    }
  }

  /** Under a domain filter and no search, the table shows as many rows as the filter bar counts. */
  lemma {:induction false} LightsRowCount(order: seq<string>, entries: map<string, Value>, favorites: set<string>)
    requires OrderedDict(order, entries)
    requires FilteredRows(order, entries, Lights, "", favorites).Ok?
    ensures |FilteredRows(order, entries, Lights, "", favorites).value| == FilterCounts(order, favorites).lights
  {
    var rows := FilteredRows(order, entries, Lights, "", favorites).value;
    var ids := IdsOf(rows);
    var shown := set k | 0 <= k < |ids| :: ids[k];
    FilteredRowsComplete(order, entries, Lights, "", favorites);
    FilteredRowsDistinct(order, entries, Lights, "", favorites);
    forall id ensures id in shown <==> id in WithPrefix(entries.Keys, "light.") {
      if id in shown {
        var k :| 0 <= k < |ids| && ids[k] == id;
        assert RowOf(rows[k], order, entries, Lights, "", favorites);
      }
      if id in WithPrefix(entries.Keys, "light.") {
        assert Admits(Lights, "", favorites, id);
        assert id in ids;
        var k :| 0 <= k < |ids| && ids[k] == id;
      }
    }
    assert shown == WithPrefix(entries.Keys, "light.");
    DistinctCardinality(ids);
    FilterCountsAreCardinalities(order, entries, favorites);
  }

  lemma {:induction false} DistinctCardinality(ids: seq<string>)
    requires Distinct(ids)
    ensures |set k | 0 <= k < |ids| :: ids[k]| == |ids|
  {
    if ids != [] {
      var init := ids[..|ids| - 1];
      assert Distinct(init) by {
        forall i, j | 0 <= i < j < |init| ensures init[i] != init[j] {
          assert init[i] == ids[i] && init[j] == ids[j];
        }
      }
      DistinctCardinality(init);
      assert (set k | 0 <= k < |ids| :: ids[k]) == (set k | 0 <= k < |init| :: init[k]) + {ids[|ids| - 1]};
    }
  }

  // ------------------------------------------------------------ favourites

  /** `action_toggle_favorite`: remove the id if present, add it otherwise. */
  function Toggle(favorites: set<string>, entityId: string): (r: set<string>)
    ensures entityId in r <==> entityId !in favorites
    ensures forall other :: other != entityId ==> (other in r <==> other in favorites)
  {
    if entityId in favorites then favorites - {entityId} else favorites + {entityId}
  }

  /** Toggling the same entity twice restores the favourites. */
  lemma ToggleTwice(favorites: set<string>, entityId: string)
    ensures Toggle(Toggle(favorites, entityId), entityId) == favorites
  {
    var twice := Toggle(Toggle(favorites, entityId), entityId);
    assert forall other :: other in twice <==> other in favorites;
  }

  // ------------------------------------------------------------ commands

  /** What a submitted command line does. */
  datatype Action =
    | Ignore                        // empty line
    | SetSearch(term: string)       // a search, or `search <text>`
    | Quit                          // `q`, `quit`
    | ShowFilter(filter: FilterMode) // `fav`, `favorites`, `lights`, `climate`, `switches`
    | ShowAll                       // `all`: filter ALL and the search cleared
    | SetGroup(group: GroupMode)    // `group type|state|room|favorites_first`
    | UnknownGroup(arg: string)
    | UnknownCommand(word: string)

  /** The `if`/`elif` chain on the lowercased command word `cmd` and its argument text `args`. */
  function Dispatch(cmd: string, args: string): (a: Action)
    ensures a == Quit <==> cmd == "q" || cmd == "quit"
    ensures a == ShowFilter(Favorites) <==> cmd == "fav" || cmd == "favorites"
    ensures a == ShowAll <==> cmd == "all"
    ensures a == ShowFilter(Lights) <==> cmd == "lights"
    ensures a == ShowFilter(Climate) <==> cmd == "climate"
    ensures a == ShowFilter(Switches) <==> cmd == "switches"
    ensures a.ShowFilter? ==> a.filter != All
    ensures a.SetSearch? <==> cmd == "search" && args != []
    ensures a.SetSearch? ==> a.term == args
    ensures a.SetGroup? || a.UnknownGroup? <==> cmd == "group"
    ensures a == SetGroup(Type) <==> cmd == "group" && args == "type"
    ensures a == SetGroup(State) <==> cmd == "group" && args == "state"
    ensures a == SetGroup(Room) <==> cmd == "group" && args == "room"
    ensures a == SetGroup(FavoritesFirst) <==> cmd == "group" && args == "favorites_first"
    ensures a.UnknownCommand? ==> a.word == cmd
    ensures a != Ignore
  {
    if cmd == "q" || cmd == "quit" then Quit
    else if cmd == "fav" || cmd == "favorites" then ShowFilter(Favorites)
    else if cmd == "all" then ShowAll
    else if cmd == "lights" then ShowFilter(Lights)
    else if cmd == "climate" then ShowFilter(Climate)
    else if cmd == "switches" then ShowFilter(Switches)
    else if cmd == "search" && args != [] then SetSearch(args)
    else if cmd == "group" then
      if args == "type" then SetGroup(Type)
      else if args == "state" then SetGroup(State)
      else if args == "room" then SetGroup(Room)
      else if args == "favorites_first" then SetGroup(FavoritesFirst)
      else UnknownGroup(args)
    else UnknownCommand(cmd)
  }

  /**
   * `on_command_line_command_submitted(message)`: `mode` is the command
   * line's mode. A search takes the whole stripped line; a command is split
   * into its first word, lowercased, and the rest.
   */
  function Interpret(mode: string, text: string): (a: Action)
    ensures a == Ignore <==> Strip(text) == []
    ensures Strip(text) != [] && mode == "search" ==> a == SetSearch(Strip(text))
    ensures a.SetSearch? ==> a.term != []
    ensures Strip(text) != [] && mode != "search" ==>
      a == Dispatch(Lower(SplitFirst(Strip(text)).0), SplitFirst(Strip(text)).1)
  {
    var command := Strip(text);
    if command == [] then Ignore
    else if mode == "search" then SetSearch(command)
    else
      var (word, args) := SplitFirst(command);
      Dispatch(Lower(word), args)
  }

  /** The view settings a command can change. */
  datatype View = View(filter: FilterMode, group: GroupMode, searchTerm: string, quit: bool)

  function Perform(v: View, a: Action): (v': View)
    ensures v'.filter != v.filter ==> a.ShowFilter? || a.ShowAll?
    ensures v'.group != v.group ==> a.SetGroup?
    ensures v'.searchTerm != v.searchTerm ==> a.SetSearch? || a.ShowAll?
    ensures v'.quit != v.quit ==> a.Quit?
    ensures a.ShowAll? ==> v'.filter == All && v'.searchTerm == ""
    ensures a.ShowFilter? ==> v'.filter == a.filter
    ensures a.SetGroup? ==> v'.group == a.group
    ensures a.SetSearch? ==> v'.searchTerm == a.term
    ensures a.Quit? ==> v'.quit
  {
    match a
    case Ignore => v
    case SetSearch(term) => v.(searchTerm := term)
    case Quit => v.(quit := true)
    case ShowFilter(filter) => v.(filter := filter)
    case ShowAll => v.(filter := All, searchTerm := "")
    case SetGroup(group) => v.(group := group)
    case UnknownGroup(_) => v
    case UnknownCommand(_) => v
  }

  /** An unknown command or group argument, or an empty line, changes no setting. */
  lemma RejectedCommandsChangeNothing(v: View, mode: string, text: string)
    requires Interpret(mode, text).UnknownCommand? || Interpret(mode, text).UnknownGroup? || Interpret(mode, text).Ignore?
    ensures Perform(v, Interpret(mode, text)) == v
  {
  }

  /** The command word is case-insensitive: `LIGHTS` does what `lights` does. */
  lemma CommandWordIgnoresCase(text: string, text': string)
    requires Strip(text) != [] && Strip(text') != []
    requires Lower(SplitFirst(Strip(text)).0) == Lower(SplitFirst(Strip(text')).0)
    requires SplitFirst(Strip(text)).1 == SplitFirst(Strip(text')).1
    ensures Interpret("command", text) == Interpret("command", text')
  {
  }

  /** `search` with nothing after it is an unknown command, not an empty search. */
  lemma BareSearchIsUnknown()
    ensures Interpret("command", "search") == UnknownCommand("search")
  {
    SearchIsOneWord();
    SearchIsLowercase();
    assert Dispatch("search", "") == UnknownCommand("search");
  }

  lemma SearchIsOneWord()
    ensures SplitFirst(Strip("search")) == ("search", "")
  {
    assert forall i :: 0 <= i < |"search"| ==> !IsSpace("search"[i]);
    SingleWord("search");
  }

  lemma SearchIsLowercase()
    ensures Lower("search") == "search"
  {
    assert forall i :: 0 <= i < |"search"| ==> LowerChar("search"[i]) == "search"[i];
  }
}
