/** The `$ref` closure of an OpenAPI document: which components a document needs, directly or through
    other components, over a graph that may have cycles and dangling references. */
module RefClosure {
  import opened Json

  const PREFIX := "#/components/"

  type Components = map<string, map<string, Json>>

  // --------------------------------------------------------------- references

  /** The reference an object itself makes. */
  function OwnRef(fields: seq<Field>): set<string> {
    var ref := Lookup(fields, "$ref");
    if ref.Str? && PREFIX <= ref.s then {ref.s} else {}
  }

  /** `_find_component_refs`: every component reference inside a value. */
  function FindRefs(v: Json): set<string>
    decreases v, 0
  {
    match v
    case Obj(fields) => OwnRef(fields) + FindInFields(fields)
    case Arr(items) => FindInItems(items)
    case _ => {}
  }

  function FindInItems(items: seq<Json>): set<string>
    decreases items
  {
    if |items| == 0 then {} else FindRefs(items[0]) + FindInItems(items[1..])
  }

  function FindInFields(fields: seq<Field>): set<string>
    decreases fields
  {
    if |fields| == 0 then {} else FindRefs(fields[0].value) + FindInFields(fields[1..])
  }

  /** `child` is a direct child of `v`. */
  predicate Child(v: Json, child: Json) {
    match v
    case Obj(fields) => exists i :: 0 <= i < |fields| && fields[i].value == child
    case Arr(items) => child in items
    case _ => false
  }

  /** `ref` is the `$ref` of some object at the end of a chain of children that starts at `v`. */
  ghost predicate Mentions(v: Json, chain: seq<Json>, ref: string)
    decreases |chain|
  {
    if |chain| == 0 then v.Obj? && ref in OwnRef(v.fields)
    else Child(v, chain[0]) && Mentions(chain[0], chain[1..], ref)
  }

  lemma {:induction false} FindInItemsMember(items: seq<Json>, ref: string)
    ensures ref in FindInItems(items) <==> exists i :: 0 <= i < |items| && ref in FindRefs(items[i])
    decreases |items|
  {
    if |items| > 0 {
      FindInItemsMember(items[1..], ref);
      if i :| 0 <= i < |items| && ref in FindRefs(items[i]) {
        assert i > 0 ==> items[1..][i - 1] == items[i];
      }
      if i :| 0 <= i < |items[1..]| && ref in FindRefs(items[1..][i]) {
        assert items[i + 1] == items[1..][i];
      }
    }
  }

  lemma {:induction false} FindInFieldsMember(fields: seq<Field>, ref: string)
    ensures ref in FindInFields(fields) <==> exists i :: 0 <= i < |fields| && ref in FindRefs(fields[i].value)
    decreases |fields|
  {
    if |fields| > 0 {
      FindInFieldsMember(fields[1..], ref);
      if i :| 0 <= i < |fields| && ref in FindRefs(fields[i].value) {
        assert i > 0 ==> fields[1..][i - 1] == fields[i];
      }
      if i :| 0 <= i < |fields[1..]| && ref in FindRefs(fields[1..][i].value) {
        assert fields[i + 1] == fields[1..][i];
      }
    }
  }

  lemma ChildRefs(v: Json, child: Json, ref: string)
    requires Child(v, child) && ref in FindRefs(child)
    ensures ref in FindRefs(v)
  {
    if v.Obj? {
      FindInFieldsMember(v.fields, ref);
    } else {
      FindInItemsMember(v.items, ref);
    }
  }

  /** The recursive search finds exactly what sits at some depth of the value. */
  lemma {:induction false} FindRefsSound(v: Json, ref: string) returns (chain: seq<Json>)
    requires ref in FindRefs(v)
    ensures Mentions(v, chain, ref)
    decreases v
  {
    if v.Obj? && ref in OwnRef(v.fields) {
      chain := [];
    } else if v.Obj? {
      FindInFieldsMember(v.fields, ref);
      var i :| 0 <= i < |v.fields| && ref in FindRefs(v.fields[i].value);
      var rest := FindRefsSound(v.fields[i].value, ref);
      chain := [v.fields[i].value] + rest;
      assert chain[1..] == rest;
    } else {
      FindInItemsMember(v.items, ref);
      var i :| 0 <= i < |v.items| && ref in FindRefs(v.items[i]);
      var rest := FindRefsSound(v.items[i], ref);
      chain := [v.items[i]] + rest;
      assert chain[1..] == rest;
    }
  }

  lemma {:induction false} FindRefsComplete(v: Json, chain: seq<Json>, ref: string)
    requires Mentions(v, chain, ref)
    ensures ref in FindRefs(v)
    decreases |chain|
  {
    if |chain| > 0 {
      FindRefsComplete(chain[0], chain[1..], ref);
      ChildRefs(v, chain[0], ref);
    }
  }

  // --------------------------------------------------------------- resolution

  /** `text.split("/")`. */
  function Split(text: string): (parts: seq<string>)
    ensures |parts| > 0
  {
    if |text| == 0 then [""]
    else
      var rest := Split(text[1..]);
      if text[0] == '/' then [""] + rest else [[text[0]] + rest[0]] + rest[1..]
  }

  datatype Target = Nothing | Found(kind: string, name: string, component: Json)

  /** What a reference names: two parts, an existing entry, and not null. */
  function Resolve(components: Components, ref: string): Target {
    var parts := Split(if PREFIX <= ref then ref[|PREFIX|..] else ref);
    if |parts| != 2 || parts[0] !in components || parts[1] !in components[parts[0]] then Nothing
    else
      var component := components[parts[0]][parts[1]];
      if component == Null then Nothing else Found(parts[0], parts[1], component)
  }

  /** The references of whatever `ref` names. */
  function Next(components: Components, ref: string): set<string> {
    match Resolve(components, ref)
    case Nothing => {}
    case Found(_, _, component) => FindRefs(component)
  }

  /** A chain of references from the document to its last element. */
  ghost predicate Path(components: Components, roots: set<string>, path: seq<string>) {
    && |path| > 0 && path[0] in roots
    && forall i :: 0 < i < |path| ==> path[i] in Next(components, path[i - 1])
  }

  ghost predicate Reaches(components: Components, roots: set<string>, ref: string) {
    exists path :: Path(components, roots, path) && path[|path| - 1] == ref
  }

  predicate Closed(components: Components, refs: set<string>) {
    forall ref {:trigger Next(components, ref)} :: ref in refs ==> Next(components, ref) <= refs
  }

  lemma ReachesRoot(components: Components, roots: set<string>, ref: string)
    requires ref in roots
    ensures Reaches(components, roots, ref)
  {
    assert Path(components, roots, [ref]);
  }

  lemma ReachesNext(components: Components, roots: set<string>, ref: string, more: string)
    requires Reaches(components, roots, ref) && more in Next(components, ref)
    ensures Reaches(components, roots, more)
  {
    var path :| Path(components, roots, path) && path[|path| - 1] == ref;
    var longer := path + [more];
    assert Path(components, roots, longer) by {
      forall i | 0 < i < |longer| ensures longer[i] in Next(components, longer[i - 1]) {
        if i < |path| {
          assert path[i] in Next(components, path[i - 1]);
        }
      }
    }
  }

  lemma {:induction false} PathStaysInside(components: Components, roots: set<string>, refs: set<string>,
                                           path: seq<string>, i: nat)
    requires Path(components, roots, path) && roots <= refs && Closed(components, refs) && i < |path|
    ensures path[i] in refs
  {
    if i > 0 {
      PathStaysInside(components, roots, refs, path, i - 1);
    }
  }

  /** Every closed set around the roots contains everything reachable. */
  lemma ReachableIsLeast(components: Components, roots: set<string>, refs: set<string>, ref: string)
    requires roots <= refs && Closed(components, refs) && Reaches(components, roots, ref)
    ensures ref in refs
  {
    var path :| Path(components, roots, path) && path[|path| - 1] == ref;
    PathStaysInside(components, roots, refs, path, |path| - 1);
  }

  // ----------------------------------------------------------------- worklist

  /** Every reference that occurs anywhere: the worklist never leaves this finite set. */
  function Universe(components: Components, roots: set<string>): set<string> {
    roots + set kind, name, ref | kind in components && name in components[kind]
                                  && ref in FindRefs(components[kind][name]) :: ref
  }

  lemma NextInUniverse(components: Components, roots: set<string>, ref: string)
    ensures Next(components, ref) <= Universe(components, roots)
  {
  }

  predicate Has(selected: Components, kind: string, name: string) {
    kind in selected && name in selected[kind]
  }

  /** `selected.setdefault(kind, {})[name] = component`. */
  function Select(selected: Components, kind: string, name: string, component: Json): Components {
    selected[kind := (if kind in selected then selected[kind] else map[])[name := component]]
  }

  /** `selected` holds what the visited references name, and nothing else. */
  ghost predicate Selects(components: Components, visited: set<string>, selected: Components) {
    && (forall kind, name :: Has(selected, kind, name) ==>
          exists ref :: ref in visited && Resolve(components, ref) == Found(kind, name, selected[kind][name]))
    && (forall ref {:trigger Resolve(components, ref)} :: ref in visited && Resolve(components, ref).Found? ==>
          Has(selected, Resolve(components, ref).kind, Resolve(components, ref).name))
    && (forall kind :: kind in selected ==> selected[kind] != map[])
  }

  /** How far the search has come: everything seen is reachable, every way on from a visited reference
      is visited or waiting, and `selected` holds what the visited references name. */
  ghost predicate Explored(components: Components, roots: set<string>, visited: set<string>, waiting: set<string>,
                           selected: Components) {
    && roots <= visited + waiting <= Universe(components, roots)
    && (forall ref {:trigger Reaches(components, roots, ref)} ::
          ref in visited + waiting ==> Reaches(components, roots, ref))
    && (forall ref {:trigger Next(components, ref)} :: ref in visited ==> Next(components, ref) <= visited + waiting)
    && Selects(components, visited, selected)
  }

  function Elements(list: seq<string>): set<string> {
    set ref | ref in list
  }

  method ToList(refs: set<string>) returns (list: seq<string>)
    ensures Elements(list) == refs
  {
    list := [];
    var rest := refs;
    while rest != {}
      invariant Elements(list) + rest == refs
      decreases |rest|
    {
      var ref :| ref in rest;
      list, rest := list + [ref], rest - {ref};
    }
  }

  /** What visiting `ref` selects. */
  function Chosen(components: Components, selected: Components, ref: string): Components {
    match Resolve(components, ref)
    case Nothing => selected
    case Found(kind, name, component) => Select(selected, kind, name, component)
  }

  lemma SelectKeeps(selected: Components, kind: string, name: string, component: Json, k: string, n: string)
    ensures Has(Select(selected, kind, name, component), k, n) <==> (k == kind && n == name) || Has(selected, k, n)
    ensures Has(Select(selected, kind, name, component), k, n) ==>
      Select(selected, kind, name, component)[k][n] == if k == kind && n == name then component else selected[k][n]
  {
  }

  lemma ChosenNamed(components: Components, visited: set<string>, selected: Components, ref: string,
                    kind: string, name: string)
    requires Selects(components, visited, selected) && Has(Chosen(components, selected, ref), kind, name)
    ensures exists r :: r in visited + {ref}
                        && Resolve(components, r) == Found(kind, name, Chosen(components, selected, ref)[kind][name])
  {
    var t := Resolve(components, ref);
    if t.Found? {
      SelectKeeps(selected, t.kind, t.name, t.component, kind, name);
    }
    if t.Found? && kind == t.kind && name == t.name {
      assert ref in visited + {ref};
    } else {
      var r :| r in visited && Resolve(components, r) == Found(kind, name, selected[kind][name]);
      assert r in visited + {ref};
    }
  }

  lemma ChosenComplete(components: Components, visited: set<string>, selected: Components, ref: string, r: string)
    requires Selects(components, visited, selected) && r in visited + {ref} && Resolve(components, r).Found?
    ensures Has(Chosen(components, selected, ref), Resolve(components, r).kind, Resolve(components, r).name)
  {
    var t := Resolve(components, ref);
    if t.Found? {
      SelectKeeps(selected, t.kind, t.name, t.component, Resolve(components, r).kind, Resolve(components, r).name);
    }
  }

  lemma ChosenSelects(components: Components, visited: set<string>, selected: Components, ref: string)
    requires Selects(components, visited, selected)
    ensures Selects(components, visited + {ref}, Chosen(components, selected, ref))
  {
    var after := Chosen(components, selected, ref);
    forall kind, name | Has(after, kind, name)
      ensures exists r :: r in visited + {ref} && Resolve(components, r) == Found(kind, name, after[kind][name])
    {
      ChosenNamed(components, visited, selected, ref, kind, name);
    }
    forall r | r in visited + {ref} && Resolve(components, r).Found?
      ensures Has(after, Resolve(components, r).kind, Resolve(components, r).name)
    {
      ChosenComplete(components, visited, selected, ref, r);
    }
  }

  /** Visiting one waiting reference and queueing what its component mentions. */
  lemma VisitKeeps(components: Components, roots: set<string>, visited: set<string>, waiting: set<string>,
                   selected: Components, ref: string, rest: set<string>)
    requires Explored(components, roots, visited, waiting, selected)
    requires ref in waiting && waiting == rest + {ref}
    ensures Explored(components, roots, visited + {ref}, rest + Next(components, ref),
                     Chosen(components, selected, ref))
  {
    NextInUniverse(components, roots, ref);
    ChosenSelects(components, visited, selected, ref);
    forall r | r in visited + {ref} + (rest + Next(components, ref)) ensures Reaches(components, roots, r) {
      if r !in visited + waiting {
        ReachesNext(components, roots, ref, r);
      }
    }
  }

  lemma StartExplored(components: Components, roots: set<string>)
    ensures Explored(components, roots, {}, roots, map[])
  {
    forall ref | ref in {} + roots ensures Reaches(components, roots, ref) {
      ReachesRoot(components, roots, ref);
    }
  }

  /** `kind`/`name` is what some reachable reference names. */
  ghost predicate Needed(components: Components, roots: set<string>, kind: string, name: string) {
    exists ref :: Reaches(components, roots, ref) && Resolve(components, ref).Found?
                  && Resolve(components, ref).kind == kind && Resolve(components, ref).name == name
  }

  /** With nothing waiting, the visited references are the reachable ones. */
  lemma ExploredSelects(components: Components, roots: set<string>, visited: set<string>, selected: Components,
                        kind: string, name: string)
    requires Explored(components, roots, visited, {}, selected)
    ensures Has(selected, kind, name) <==> Needed(components, roots, kind, name)
    ensures Has(selected, kind, name) ==>
      Has(components, kind, name) && selected[kind][name] == components[kind][name]
  {
    assert visited + {} == visited;
    if Needed(components, roots, kind, name) {
      var ref :| Reaches(components, roots, ref) && Resolve(components, ref).Found?
                 && Resolve(components, ref).kind == kind && Resolve(components, ref).name == name;
      ReachableIsLeast(components, roots, visited, ref);
    }
  }

  /** The result of the search: what is needed, as it is in the source document. */
  ghost predicate Exact(components: Components, roots: set<string>, selected: Components) {
    && (forall kind, name :: Has(selected, kind, name) <==> Needed(components, roots, kind, name))
    && (forall kind, name :: Has(selected, kind, name) ==>
          Has(components, kind, name) && selected[kind][name] == components[kind][name])
    && (forall kind :: kind in selected ==> selected[kind] != map[])
  }

  lemma ExploredResult(components: Components, roots: set<string>, visited: set<string>, selected: Components)
    requires Explored(components, roots, visited, {}, selected)
    ensures Exact(components, roots, selected)
  {
    forall kind, name
      ensures Has(selected, kind, name) <==> Needed(components, roots, kind, name)
      ensures Has(selected, kind, name) ==>
        Has(components, kind, name) && selected[kind][name] == components[kind][name]
    {
      ExploredSelects(components, roots, visited, selected, kind, name);
    }
  }

  lemma SkipKeeps(components: Components, roots: set<string>, visited: set<string>, waiting: set<string>,
                  selected: Components, ref: string, rest: set<string>)
    requires Explored(components, roots, visited, waiting, selected)
    requires ref in visited && waiting == rest + {ref}
    ensures Explored(components, roots, visited, rest, selected)
  {
    assert visited + waiting == visited + rest;
  }

  lemma UnseenShrinks(components: Components, roots: set<string>, visited: set<string>, waiting: set<string>,
                      selected: Components, ref: string)
    requires Explored(components, roots, visited, waiting, selected) && ref in waiting && ref !in visited
    ensures |Universe(components, roots) - (visited + {ref})| < |Universe(components, roots) - visited|
  {
    assert ref in Universe(components, roots) - visited;
    assert Universe(components, roots) - (visited + {ref}) == Universe(components, roots) - visited - {ref};
  }

  lemma PopElements(pending: seq<string>)
    requires |pending| > 0
    ensures Elements(pending) == Elements(pending[..|pending| - 1]) + {pending[|pending| - 1]}
  {
    assert pending == pending[..|pending| - 1] + [pending[|pending| - 1]];
  }

  lemma AppendElements(a: seq<string>, b: seq<string>)
    ensures Elements(a + b) == Elements(a) + Elements(b)
  {
  }

  /** Visiting a new reference: mark it, select what it names, queue what that mentions. */
  method Visit(components: Components, ghost roots: set<string>, visited: set<string>, ghost waiting: set<string>,
               pending: seq<string>, selected: Components, ref: string) returns (queue: seq<string>, chosen: Components)
    requires Explored(components, roots, visited, waiting, selected)
    requires ref in waiting && waiting == Elements(pending) + {ref}
    ensures Explored(components, roots, visited + {ref}, Elements(queue), chosen)
  {
    VisitKeeps(components, roots, visited, waiting, selected, ref, Elements(pending));
    match Resolve(components, ref) {
      case Nothing =>
        queue, chosen := pending, selected;
        assert Elements(pending) + Next(components, ref) == Elements(queue);
      case Found(kind, name, component) =>
        chosen := Select(selected, kind, name, component);
        var found := ToList(FindRefs(component));
        AppendElements(pending, found);
        queue := pending + found;
    }
  }

  /** `_referenced_components`. The order in which references wait is left open: it is that of
      the set `_find_component_refs` returns, and the result does not depend on it. */
  method ReferencedComponents(components: Components, document: Json) returns (selected: Components)
    ensures Exact(components, FindRefs(document), selected)
  {
    ghost var roots := FindRefs(document);
    ghost var all := Universe(components, roots);
    selected := map[];
    var visited: set<string> := {};
    var pending := ToList(FindRefs(document));
    StartExplored(components, roots);
    while |pending| > 0
      invariant Explored(components, roots, visited, Elements(pending), selected)
      decreases |all - visited|, |pending|
    {
      var ref := pending[|pending| - 1];
      PopElements(pending);
      ghost var waiting := Elements(pending);
      pending := pending[..|pending| - 1];
      if ref in visited {
        SkipKeeps(components, roots, visited, waiting, selected, ref, Elements(pending));
      } else {
        UnseenShrinks(components, roots, visited, waiting, selected, ref);
        pending, selected := Visit(components, roots, visited, waiting, pending, selected, ref);
        visited := visited + {ref};
      }
    }
    assert Elements(pending) == {};
    ExploredResult(components, roots, visited, selected);
  }

  // ------------------------------------------------------------ what it means

  /** A reference names a component of `selected`, unless it dangles in `components` too. */
  predicate Served(components: Components, selected: Components, ref: string) {
    Resolve(components, ref).Found? ==> Resolve(selected, ref) == Resolve(components, ref)
  }

  lemma ReachedServed(components: Components, roots: set<string>, selected: Components, ref: string)
    requires Exact(components, roots, selected)
    requires Reaches(components, roots, ref)
    ensures Served(components, selected, ref)
  {
    var t := Resolve(components, ref);
    if t.Found? {
      assert Needed(components, roots, t.kind, t.name);
      assert Has(selected, t.kind, t.name);
    }
  }

  /** Any closed choice serves every reference along a path. */
  lemma {:induction false} PathServed(components: Components, roots: set<string>, other: Components,
                                      path: seq<string>, i: nat)
    requires Path(components, roots, path) && i < |path|
    requires SelfContained(components, roots, other)
    ensures Served(components, other, path[i])
  {
    if i > 0 {
      PathServed(components, roots, other, path, i - 1);
      assert path[i] in Next(components, path[i - 1]);
      var t := Resolve(components, path[i - 1]);
      assert Has(other, t.kind, t.name);
    }
  }

  /** Every reference the document or a kept component makes still names the same component. */
  ghost predicate SelfContained(components: Components, roots: set<string>, selected: Components) {
    && (forall ref :: ref in roots ==> Served(components, selected, ref))
    && (forall kind, name, ref :: Has(selected, kind, name) && ref in FindRefs(selected[kind][name])
          ==> Served(components, selected, ref))
  }

  /** What the search keeps is enough. */
  lemma SelectionIsSelfContained(components: Components, roots: set<string>, selected: Components)
    requires Exact(components, roots, selected)
    ensures SelfContained(components, roots, selected)
  {
    forall ref | ref in roots ensures Served(components, selected, ref) {
      ReachesRoot(components, roots, ref);
      ReachedServed(components, roots, selected, ref);
    }
    forall kind, name, ref | Has(selected, kind, name) && ref in FindRefs(selected[kind][name])
      ensures Served(components, selected, ref)
    {
      var from :| Reaches(components, roots, from) && Resolve(components, from).Found?
                  && Resolve(components, from).kind == kind && Resolve(components, from).name == name;
      ReachesNext(components, roots, from, ref);
      ReachedServed(components, roots, selected, ref);
    }
  }

  /** What the search keeps is necessary: every self-contained choice holds all of it. */
  lemma SelectionIsLeast(components: Components, roots: set<string>, selected: Components, other: Components,
                         kind: string, name: string)
    requires Exact(components, roots, selected) && SelfContained(components, roots, other)
    requires Has(selected, kind, name)
    ensures Has(other, kind, name) && other[kind][name] == selected[kind][name]
  {
    var from :| Reaches(components, roots, from) && Resolve(components, from).Found?
                && Resolve(components, from).kind == kind && Resolve(components, from).name == name;
    var path :| Path(components, roots, path) && path[|path| - 1] == from;
    PathServed(components, roots, other, path, |path| - 1);
  }
}
