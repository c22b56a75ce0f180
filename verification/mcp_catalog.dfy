/** Building one server's tool catalogue, and the union of the catalogues that becomes the
    registry: crates/remo-ext-mcp/src/manager.rs. */
module McpCatalog {
  import opened Wrappers
  import opened IdMapping
  import opened McpSlot

  /** Every entry carries the id computed from its own server and tool name. */
  ghost predicate CatalogOf(server: string, c: Catalog) {
    forall id :: id in c ==> c[id].server == server && ToToolId(server, c[id].name) == Ok(id)
  }

  /** The catalogue of `defs`, or the first definition that cannot be published. */
  function Published(server: string, defs: seq<string>): (r: Result<Catalog, string>)
    ensures r.Ok? ==> CatalogOf(server, r.value)
  {
    if defs == [] then Ok(map[])
    else
      var last := defs[|defs| - 1];
      match Published(server, defs[..|defs| - 1])
      case Err(e) => Err(e)
      case Ok(c) =>
        match ToToolId(server, last)
        case Err(e) => Err(e)
        case Ok(id) => if id in c then Err(id) else Ok(c[id := Tool(server, last)])
  }

  method BuildPublishedTools(server: string, defs: seq<string>) returns (r: Result<Catalog, string>)
    ensures r == Published(server, defs)
  {
    var published: Catalog := map[];
    for i := 0 to |defs|
      invariant Published(server, defs[..i]) == Ok(published)
    {
      assert defs[..i + 1][..i] == defs[..i];
      var id := ToToolId(server, defs[i]);
      if id.Err? {
        PublishedErrStays(server, defs, i + 1);
        return Err(id.error);
      }
      if id.value in published {
        PublishedErrStays(server, defs, i + 1);
        return Err(id.value);
      }
      published := published[id.value := Tool(server, defs[i])];
    }
    assert defs[..|defs|] == defs;
    r := Ok(published);
  }

  lemma {:induction false} PublishedErrStays(server: string, defs: seq<string>, n: nat)
    requires n <= |defs| && Published(server, defs[..n]).Err?
    ensures Published(server, defs) == Published(server, defs[..n])
    decreases |defs|
  {
    if n < |defs| {
      var init := defs[..|defs| - 1];
      assert init[..n] == defs[..n];
      PublishedErrStays(server, init, n);
    } else {
      assert defs[..n] == defs;
    }
  }

  /** Every name sanitises and no two definitions share an id. */
  ghost predicate Publishable(server: string, defs: seq<string>) {
    && (forall i :: 0 <= i < |defs| ==> ToToolId(server, defs[i]).Ok?)
    && (forall i, j :: 0 <= i < j < |defs| ==> ToToolId(server, defs[i]) != ToToolId(server, defs[j]))
  }

  /** A catalogue exists exactly when the definitions are publishable. */
  lemma {:induction false} PublishedIff(server: string, defs: seq<string>)
    ensures Published(server, defs).Ok? <==> Publishable(server, defs)
  {
    hide ToToolId;
    if defs == [] {
    } else {
      var n := |defs| - 1;
      var init := defs[..n];
      PublishedIff(server, init);
      assert forall i :: 0 <= i < n ==> init[i] == defs[i];
      if Published(server, init).Ok? && ToToolId(server, defs[n]).Ok? {
        var c, id := Published(server, init).value, ToToolId(server, defs[n]).value;
        PublishedIdsComeFrom(server, init, id);
        if id in c {
          var j :| 0 <= j < |init| && ToToolId(server, init[j]) == Ok(id);
          assert ToToolId(server, defs[j]) == ToToolId(server, defs[n]);
        } else {
          forall j | 0 <= j < n ensures ToToolId(server, defs[j]) != Ok(id) {
            PublishedHolds(server, init, j);
          }
        }
      }
    }
  }

  /** It maps the id of each definition to that definition and holds nothing else. */
  lemma {:induction false} PublishedHolds(server: string, defs: seq<string>, i: nat)
    requires Published(server, defs).Ok? && i < |defs|
    ensures |Published(server, defs).value| == |defs|
    ensures ToToolId(server, defs[i]).Ok?
    ensures ToToolId(server, defs[i]).value in Published(server, defs).value
    ensures Published(server, defs).value[ToToolId(server, defs[i]).value] == Tool(server, defs[i])
  {
    hide ToToolId;
    var n := |defs| - 1;
    if n > 0 {
      PublishedHolds(server, defs[..n], if i < n then i else 0);
    }
  }

  lemma {:induction false} PublishedIdsComeFrom(server: string, defs: seq<string>, id: string)
    requires Published(server, defs).Ok?
    ensures id in Published(server, defs).value ==>
              exists j :: 0 <= j < |defs| && ToToolId(server, defs[j]) == Ok(id)
  {
    if defs == [] {
    } else {
      var n := |defs| - 1;
      var init := defs[..n];
      PublishedIdsComeFrom(server, init, id);
      if id in Published(server, init).value {
        var j :| 0 <= j < |init| && ToToolId(server, init[j]) == Ok(id);
        assert defs[j] == init[j];
      }
    }
  }

  /** The slot holds this tool under this id, whether it is served or not. */
  ghost predicate Publishes(s: Slot, id: string, tool: Tool) {
    s.published.Some? && id in s.published.value.catalog && s.published.value.catalog[id] == tool
  }

  /** Slots whose last good catalogue is served. */
  predicate Eligible(s: Slot) {
    s.lifecycle != Disabled && s.lifecycle != Disabling && s.lifecycle != PermanentlyFailed
    && s.published.Some?
  }

  ghost predicate Serves(s: Slot, id: string) {
    Eligible(s) && id in s.published.value.catalog
  }

  ghost predicate Conflict(slots: seq<Slot>, i: int, j: int, id: string) {
    0 <= i < j < |slots| && Serves(slots[i], id) && Serves(slots[j], id)
  }

  /** The union of the eligible catalogues; `None` when two of them share an id. */
  function Union(slots: seq<Slot>): Option<Catalog> {
    if slots == [] then Some(map[])
    else
      var s := slots[|slots| - 1];
      match Union(slots[..|slots| - 1])
      case None => None
      case Some(m) =>
        if !Eligible(s) then Some(m)
        else if !(m.Keys !! s.published.value.catalog.Keys) then None
        else Some(m + s.published.value.catalog)
  }

  /** `discover_tools`: the nested loops, the inner one in no particular order. */
  method DiscoverTools(slots: seq<Slot>) returns (r: Result<Catalog, string>)
    ensures r.Ok? ==> Union(slots) == Some(r.value)
    ensures r.Err? ==> Union(slots) == None && exists i, j :: Conflict(slots, i, j, r.error)
    ensures r.Ok? ==> forall id :: id in r.value ==>
              exists i :: 0 <= i < |slots| && Publishes(slots[i], id, r.value[id])
                          && slots[i].lifecycle in {Connecting, Lifecycle.Connected, Reconnecting, Disconnected}
    ensures r.Ok? ==> forall i, id, tool ::
              0 <= i < |slots| && Publishes(slots[i], id, tool)
              && slots[i].lifecycle in {Connecting, Lifecycle.Connected, Reconnecting, Disconnected}
              ==> id in r.value && r.value[id] == tool
    ensures r.Err? ==>
              exists i, j, t, u ::
                0 <= i < j < |slots| && Publishes(slots[i], r.error, t) && Publishes(slots[j], r.error, u)
                && slots[i].lifecycle in {Connecting, Lifecycle.Connected, Reconnecting, Disconnected}
                && slots[j].lifecycle in {Connecting, Lifecycle.Connected, Reconnecting, Disconnected}
  {
    var tools: Catalog := map[];
    for n := 0 to |slots|
      invariant Union(slots[..n]) == Some(tools)
    {
      var slot := slots[n];
      assert slots[..n + 1][..n] == slots[..n];
      if !Eligible(slot) { continue; }
      var catalog := slot.published.value.catalog;
      ghost var before := tools;
      var todo := catalog.Keys;
      while todo != {}
        invariant todo <= catalog.Keys
        invariant before.Keys !! (catalog.Keys - todo)
        invariant tools == before + map id | id in catalog && id !in todo :: catalog[id]
        decreases todo
      {
        var id :| id in todo;
        if id in tools {
          assert id in before.Keys && id in catalog.Keys;
          UnionNoneStays(slots, n + 1);
          UnionComesFrom(slots[..n], id);
          ghost var i :| 0 <= i < n && Serves(slots[..n][i], id);
          assert Conflict(slots, i, n, id);
          assert Publishes(slots[i], id, slots[i].published.value.catalog[id]);
          assert Publishes(slots[n], id, catalog[id]);
          return Err(id);
        }
        tools := tools[id := catalog[id]];
        todo := todo - {id};
      }
      assert tools == before + catalog;
      assert catalog.Keys - todo == catalog.Keys;
    }
    assert slots[..|slots|] == slots;
    UnionIsWhatIsPublished(slots);
    r := Ok(tools);
  }

  lemma {:induction false} UnionNoneStays(slots: seq<Slot>, n: nat)
    requires n <= |slots| && Union(slots[..n]) == None
    ensures Union(slots) == None
    decreases |slots|
  {
    if n < |slots| {
      assert slots[..|slots| - 1][..n] == slots[..n];
      UnionNoneStays(slots[..|slots| - 1], n);
    } else {
      assert slots[..n] == slots;
    }
  }

  lemma {:induction false} UnionComesFrom(slots: seq<Slot>, id: string)
    requires Union(slots).Some?
    ensures id in Union(slots).value <==> exists i :: 0 <= i < |slots| && Serves(slots[i], id)
  {
    if slots == [] {
    } else {
      var n := |slots| - 1;
      UnionComesFrom(slots[..n], id);
      assert forall i :: 0 <= i < n ==> slots[..n][i] == slots[i];
      if exists i :: 0 <= i < n && Serves(slots[..n][i], id) {
        var i :| 0 <= i < n && Serves(slots[..n][i], id);
        assert Serves(slots[i], id);
      }
    }
  }

  lemma {:induction false} ConflictFails(slots: seq<Slot>, i: int, j: int, id: string)
    requires Conflict(slots, i, j, id)
    ensures Union(slots) == None
  {
    var n := |slots| - 1;
    var init := slots[..n];
    if j < n {
      ConflictFails(init, i, j, id);
    } else if Union(init).Some? {
      UnionComesFrom(init, id);
      assert Serves(init[i], id);
      assert id in Union(init).value.Keys && id in slots[n].published.value.catalog.Keys;
    }
  }

  /** Discovery fails exactly when two eligible slots publish one id. */
  lemma {:induction false} UnionFailsIff(slots: seq<Slot>)
    ensures Union(slots) == None <==> exists i, j, id :: Conflict(slots, i, j, id)
  {
    if slots != [] && Union(slots) == None {
      var n := |slots| - 1;
      var init := slots[..n];
      UnionFailsIff(init);
      if Union(init) == None {
        var i, j, id :| Conflict(init, i, j, id);
        assert Conflict(slots, i, j, id);
      } else {
        var id :| id in Union(init).value.Keys && id in slots[n].published.value.catalog.Keys;
        UnionComesFrom(init, id);
        var i :| 0 <= i < |init| && Serves(init[i], id);
        assert Conflict(slots, i, n, id);
      }
    }
    if exists i, j, id :: Conflict(slots, i, j, id) {
      var i, j, id :| Conflict(slots, i, j, id);
      ConflictFails(slots, i, j, id);
    }
  }

  /** When it succeeds, each id carries the tool of the one eligible slot that serves it. */
  lemma {:induction false} UnionIsDisjointUnion(slots: seq<Slot>, i: nat, id: string)
    requires Union(slots).Some? && i < |slots| && Serves(slots[i], id)
    ensures id in Union(slots).value && Union(slots).value[id] == slots[i].published.value.catalog[id]
    ensures forall j :: 0 <= j < |slots| && Serves(slots[j], id) ==> j == i
  {
    forall j | 0 <= j < |slots| && Serves(slots[j], id) ensures j == i {
      if i < j { ConflictFails(slots, i, j, id); }
      if j < i { ConflictFails(slots, j, i, id); }
    }
    UnionValue(slots, i, id);
  }

  lemma {:induction false} UnionValue(slots: seq<Slot>, i: nat, id: string)
    requires Union(slots).Some? && i < |slots| && Serves(slots[i], id)
    ensures id in Union(slots).value && Union(slots).value[id] == slots[i].published.value.catalog[id]
  {
    var n := |slots| - 1;
    if i < n {
      var init := slots[..n];
      UnionValue(init, i, id);
    }
  }

  /** The union holds a tool under an id exactly when a server that has been neither turned off
      nor given up publishes it there. */
  lemma UnionIsWhatIsPublished(slots: seq<Slot>)
    requires Union(slots).Some?
    ensures forall id :: id in Union(slots).value ==>
              exists i :: 0 <= i < |slots| && Publishes(slots[i], id, Union(slots).value[id])
                          && slots[i].lifecycle in {Connecting, Lifecycle.Connected, Reconnecting, Disconnected}
    ensures forall i, id, tool ::
              0 <= i < |slots| && Publishes(slots[i], id, tool)
              && slots[i].lifecycle in {Connecting, Lifecycle.Connected, Reconnecting, Disconnected}
              ==> id in Union(slots).value && Union(slots).value[id] == tool
  {
    hide Union;
    forall id | id in Union(slots).value
      ensures exists i :: 0 <= i < |slots| && Publishes(slots[i], id, Union(slots).value[id])
                          && slots[i].lifecycle in {Connecting, Lifecycle.Connected, Reconnecting, Disconnected}
    {
      UnionComesFrom(slots, id);
      var i :| 0 <= i < |slots| && Serves(slots[i], id);
      UnionIsDisjointUnion(slots, i, id);
      assert Publishes(slots[i], id, Union(slots).value[id]);
    }
    forall i, id, tool | 0 <= i < |slots| && Publishes(slots[i], id, tool)
        && slots[i].lifecycle in {Connecting, Lifecycle.Connected, Reconnecting, Disconnected}
      ensures id in Union(slots).value && Union(slots).value[id] == tool
    {
      UnionIsDisjointUnion(slots, i, id);
    }
  }

  /** Servers whose names sanitise to different strings can never collide. */
  lemma DistinctServersNeverConflict(slots: seq<Slot>, names: seq<string>)
    requires |slots| == |names|
    requires forall i :: 0 <= i < |slots| && slots[i].published.Some? ==>
               CatalogOf(names[i], slots[i].published.value.catalog)
    requires forall i, j :: 0 <= i < j < |names| ==> Sanitized(names[i]) != Sanitized(names[j])
    ensures Union(slots).Some?
  {
    UnionFailsIff(slots);
    if Union(slots) == None {
      var i, j, id :| Conflict(slots, i, j, id);
      var a, b := slots[i].published.value.catalog[id], slots[j].published.value.catalog[id];
      ToolIdAgreesIff(a.server, a.name, b.server, b.name);
      assert false;
    }
  }
}
