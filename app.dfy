/**
 * The state `HomeAssistantTUI` keeps outside its widgets, as a class: the
 * entity cache (a dict, as its key order and its mapping), the favourites
 * set, the selected entity and the filter, group and search settings. Each
 * method performs the Python handler's assignments and promises the result
 * of the matching `AppView` function.
 */
module App {
  import opened Wrappers
  import opened Json
  import opened Strings
  import opened AppView

  /** `self.selected_entity["entity_id"]` of a truthy selection, when that lookup gives a string. */
  function SelectedEntityId(selected: Option<Value>): (r: Option<string>)
    ensures r.Some? ==> selected.Some? && EntityIdText(selected.value) == r
  {
    if selected.Some? && Truthy(selected.value) then EntityIdText(selected.value) else None
  }

  class HomeAssistantTui {
    /** `config.app.filters.domains` */
    const domains: seq<string>
    var entityOrder: seq<string>
    var entities: map<string, Value>
    var favorites: set<string>
    var selected: Option<Value>
    var currentFilter: FilterMode
    var currentGroup: GroupMode
    var searchTerm: string
    var quitRequested: bool

    ghost predicate Valid()
      reads this
    {
      OrderedDict(entityOrder, entities)
    }

    function Settings(): View
      reads this
    {
      View(currentFilter, currentGroup, searchTerm, quitRequested)
    }

    /** `__init__`: an empty cache, the configured favourites, filter ALL, grouping FAVORITES_FIRST, no search. */
    constructor (domains: seq<string>, favorites: set<string>)
      ensures Valid()
      ensures this.domains == domains && this.favorites == favorites
      ensures entityOrder == [] && entities == map[] && selected == None
      ensures Settings() == View(All, FavoritesFirst, "", false)
    {
      this.domains := domains;
      this.favorites := favorites;
      entityOrder := [];
      entities := map[];
      selected := None;
      currentFilter := All;
      currentGroup := FavoritesFirst;
      searchTerm := "";
      quitRequested := false;
    }

    /**
     * `action_refresh()` once `get_states()` returned `states`: the cache is
     * replaced by the states of the configured domains, unless the
     * comprehension raised. Without an API object nothing happens.
     */
    method Refresh(apiReady: bool, states: seq<Value>)
      requires Valid()
      modifies this`entityOrder, this`entities
      ensures Valid()
      ensures !apiReady || FilterToDomains(states, domains).None? ==>
        entityOrder == old(entityOrder) && entities == old(entities)
      ensures apiReady && FilterToDomains(states, domains).Some? ==>
        (entityOrder, entities) == FilterToDomains(states, domains).value
    {
      if !apiReady {
        return;
      }
      var order: seq<string> := [];
      var entries: map<string, Value> := map[];
      var i := 0;
      while i < |states|
        invariant 0 <= i <= |states|
        invariant FilterToDomains(states[..i], domains) == Some((order, entries))
      {
        assert states[..i + 1][..i] == states[..i];
        var id := EntityIdText(states[i]);
        if id.None? {
          // `state["entity_id"]` or `.startswith` raised; the handler logs it
          FilterToDomainsFails(states, domains, i);
          return;
        }
        if Allowed(id.value, domains) {
          var put := Put(order, entries, id.value, states[i]);
          order, entries := put.0, put.1;
        }
        i := i + 1;
      }
      assert states[..i] == states;
      entityOrder, entities := order, entries;
    }

    /** `_get_filtered_entities()`: walk the cache in key order, keep what the filter and the search admit. */
    method GetFilteredEntities() returns (r: Result<seq<Row>, RowError>)
      requires Valid()
      ensures r == FilteredRows(entityOrder, entities, currentFilter, searchTerm, favorites)
    {
      var rows: seq<Row> := [];
      var i := 0;
      while i < |entityOrder|
        invariant 0 <= i <= |entityOrder|
        invariant FilteredRows(entityOrder[..i], entities, currentFilter, searchTerm, favorites) == Ok(rows)
      {
        var id := entityOrder[i];
        FilteredRowsStep(entityOrder, entities, currentFilter, searchTerm, favorites, i);
        if !PassesFilter(currentFilter, id, favorites) {
          i := i + 1;
          continue;
        }
        if searchTerm != [] && !Contains(Lower(id), Lower(searchTerm)) {
          i := i + 1;
          continue;
        }
        var state := StateText(entities[id]);
        if state.None? {
          FilteredRowsStopsAt(entityOrder, entities, currentFilter, searchTerm, favorites, i + 1);
          return Err(MissingState(id));
        }
        rows := rows + [MakeRow(id, state.value, favorites)];
        i := i + 1;
      }
      assert entityOrder[..i] == entityOrder;
      r := Ok(rows);
    }

    /** `_update_entity_table()`'s rows: the filtered rows in the order of the current group mode. */
    method TableRows() returns (r: Result<seq<Row>, RowError>)
      requires Valid()
      ensures r.Err? <==> FilteredRows(entityOrder, entities, currentFilter, searchTerm, favorites).Err?
      ensures r.Ok? ==>
        && multiset(r.value) == multiset(FilteredRows(entityOrder, entities, currentFilter, searchTerm, favorites).value)
        && Sorted(currentGroup, r.value)
    {
      var filtered := GetFilteredEntities();
      if filtered.Err? {
        return filtered;
      }
      r := Ok(SortEntities(currentGroup, filtered.value));
    }

    /** `on_command_line_command_submitted(message)` */
    method SubmitCommand(mode: string, text: string)
      requires Valid()
      modifies this`currentFilter, this`currentGroup, this`searchTerm, this`quitRequested
      ensures Valid()
      ensures Settings() == Perform(old(Settings()), Interpret(mode, text))
    {
      var command := Strip(text);
      if command == [] {
        return;
      }
      if mode == "search" {
        searchTerm := command;
        return;
      }
      var (word, args) := SplitFirst(command);
      RunCommand(Lower(word), args);
    }

    /** The `if`/`elif` chain of `on_command_line_command_submitted` on the command word and its argument. */
    method RunCommand(cmd: string, args: string)
      requires Valid()
      modifies this`currentFilter, this`currentGroup, this`searchTerm, this`quitRequested
      ensures Valid()
      ensures Settings() == Perform(old(Settings()), Dispatch(cmd, args))
    {
      if cmd == "q" || cmd == "quit" {
        quitRequested := true;
      } else if cmd == "fav" || cmd == "favorites" {
        currentFilter := Favorites;
      } else if cmd == "all" {
        currentFilter := All;
        searchTerm := "";
      } else if cmd == "lights" {
        currentFilter := Lights;
      } else if cmd == "climate" {
        currentFilter := Climate;
      } else if cmd == "switches" {
        currentFilter := Switches;
      } else if cmd == "search" && args != [] {
        searchTerm := args;
      } else if cmd == "group" {
        if args == "type" {
          currentGroup := Type;
        } else if args == "state" {
          currentGroup := State;
        } else if args == "room" {
          currentGroup := Room;
        } else if args == "favorites_first" {
          currentGroup := FavoritesFirst;
        }
      }
    }

    /** `on_data_table_row_selected`: the selection is the cached state of the chosen row, or None. */
    method Select(entityId: string)
      modifies this`selected
      ensures entityId in entities ==> selected == Some(entities[entityId])
      ensures entityId !in entities ==> selected == None
    {
      selected := if entityId in entities then Some(entities[entityId]) else None;
    }

    /** `action_toggle_favorite()` */
    method ToggleFavorite()
      modifies this`favorites
      ensures SelectedEntityId(selected).None? ==> favorites == old(favorites)
      ensures SelectedEntityId(selected).Some? ==> favorites == Toggle(old(favorites), SelectedEntityId(selected).value)
    {
      if selected.None? || !Truthy(selected.value) {
        return;
      }
      var entityId := EntityIdText(selected.value);
      if entityId.None? {
        // `selected_entity["entity_id"]` raised
        return;
      }
      if entityId.value in favorites {
        favorites := favorites - {entityId.value};
      } else {
        favorites := favorites + {entityId.value};
      }
    }

    /** `_on_state_changed(event)` */
    method OnStateChanged(event: Value, cell: CellUpdate)
      requires Valid()
      modifies this`entityOrder, this`entities, this`selected
      ensures Valid()
      ensures CacheUpdate(event, domains).None? ==> unchanged(this)
      ensures CacheUpdate(event, domains).Some? ==>
        var (id, state) := CacheUpdate(event, domains).value;
        && (entityOrder, entities) == Put(old(entityOrder), old(entities), id, state)
        && selected == SelectionAfter(old(selected), id, state, cell)
    {
      var update := CacheUpdate(event, domains);
      if update.None? {
        return;
      }
      var (id, state) := update.value;
      var known := id in entities;
      entities := entities[id := state];
      if !known {
        entityOrder := entityOrder + [id];
      }
      selected := SelectionAfter(selected, id, state, cell);
    }
  }

  /** The comprehension raises at the first state without a string `entity_id`. */
  lemma FilterToDomainsFails(states: seq<Value>, domains: seq<string>, i: int)
    requires 0 <= i < |states| && EntityIdText(states[i]).None?
    ensures FilterToDomains(states, domains).None?
  {
  }

  /** One more key of the cache: its row is appended, it is skipped, or the walk raises there. */
  lemma FilteredRowsStep(order: seq<string>, entries: map<string, Value>, filter: FilterMode, searchTerm: string, favorites: set<string>, i: int)
    requires forall id :: id in order ==> id in entries
    requires 0 <= i < |order|
    ensures forall id :: id in order[..i] ==> id in entries
    ensures forall id :: id in order[..i + 1] ==> id in entries
    ensures var before := FilteredRows(order[..i], entries, filter, searchTerm, favorites);
      var after := FilteredRows(order[..i + 1], entries, filter, searchTerm, favorites);
      && (before.Err? ==> after == before)
      && (before.Ok? && !Admits(filter, searchTerm, favorites, order[i]) ==> after == before)
      && (before.Ok? && Admits(filter, searchTerm, favorites, order[i]) && StateText(entries[order[i]]).None? ==>
            after == Err(MissingState(order[i])))
      && (before.Ok? && Admits(filter, searchTerm, favorites, order[i]) && StateText(entries[order[i]]).Some? ==>
            after == Ok(before.value + [MakeRow(order[i], StateText(entries[order[i]]).value, favorites)]))
  {
    assert order[..i + 1][..i] == order[..i];
    assert order[..i + 1][i] == order[i];
  }

  /** Once a prefix of the cache raised, the whole walk raises the same way. */
  lemma {:induction false} FilteredRowsStopsAt(order: seq<string>, entries: map<string, Value>, filter: FilterMode, searchTerm: string, favorites: set<string>, k: int)
    requires forall id :: id in order ==> id in entries
    requires 0 <= k <= |order| && FilteredRows(order[..k], entries, filter, searchTerm, favorites).Err?
    ensures FilteredRows(order, entries, filter, searchTerm, favorites) == FilteredRows(order[..k], entries, filter, searchTerm, favorites)
  {
    if k == |order| {
      assert order[..k] == order;
    } else {
      var prefix := order[..|order| - 1];
      assert prefix[..k] == order[..k];
      FilteredRowsStopsAt(prefix, entries, filter, searchTerm, favorites, k);
    }
  }
}
