/**
 * The walk of the deployed module graph (scripts/deployed-graph.ts): a worklist over the files a
 * bundler's resolver reaches, recording every specifier it refuses and every file it cannot read.
 */
module DeployedGraph {
  import opened Lists

  type File = string

  datatype Kind = ImportStatement | RequireCall

  datatype Edge = Edge(specifier: string, kind: Kind)

  /** A module's own specifiers, as its lowered source writes them. */
  datatype Reading = Failed(reason: string) | Parsed(imports: seq<string>, required: seq<string>)

  datatype Answer = Answer(errors: seq<string>, path: File, external: bool)

  datatype Unresolved = Unresolved(file: File, specifier: string, reason: string)

  /** What the walk asks of its surroundings: which files are modules, what each one holds, and
      what the resolver answers from the file's directory. */
  datatype World = World(
    isModule: File -> bool,
    read: File -> Reading,
    provided: string -> bool,
    resolve: (File, Edge) -> Answer)

  // ------------------------------------------------------------- a file's edges

  predicate Names(es: seq<Edge>, specifier: string) {
    exists i :: 0 <= i < |es| && es[i].specifier == specifier
  }

  function AddAll(es: seq<Edge>, specifiers: seq<string>, kind: Kind): seq<Edge>
    decreases |specifiers|
  {
    if specifiers == [] then es
    else
      var last := specifiers[|specifiers| - 1];
      var before := AddAll(es, specifiers[..|specifiers| - 1], kind);
      if Names(before, last) then before else before + [Edge(last, kind)]
  }

  function Edges(imports: seq<string>, required: seq<string>): seq<Edge> {
    AddAll(AddAll([], imports, ImportStatement), required, RequireCall)
  }

  ghost predicate OnePerSpecifier(es: seq<Edge>) {
    forall i, j :: 0 <= i < j < |es| ==> es[i].specifier != es[j].specifier
  }

  lemma {:induction false} AddsEach(es: seq<Edge>, specifiers: seq<string>, kind: Kind)
    requires OnePerSpecifier(es)
    ensures OnePerSpecifier(AddAll(es, specifiers, kind))
    ensures forall e :: e in AddAll(es, specifiers, kind)
                        <==> e in es || (e.kind == kind && e.specifier in specifiers && !Names(es, e.specifier))
    decreases |specifiers|
  {
    if specifiers != [] {
      var init, last := specifiers[..|specifiers| - 1], specifiers[|specifiers| - 1];
      AddsEach(es, init, kind);
      assert specifiers == init + [last];
      var before := AddAll(es, init, kind);
      forall e ensures e in AddAll(es, specifiers, kind)
                       <==> e in es || (e.kind == kind && e.specifier in specifiers && !Names(es, e.specifier))
      {
        if Names(before, last) && e == Edge(last, kind) && !Names(es, last) {
          var i :| 0 <= i < |before| && before[i].specifier == last;
          assert before[i] in before;
          assert before[i] !in es;
        }
      }
    }
  }

  /** One edge per specifier the module names; an `import` of it wins over a `require`. */
  lemma ImportWinsOverRequire(imports: seq<string>, required: seq<string>)
    ensures OnePerSpecifier(Edges(imports, required))
    ensures forall e :: e in Edges(imports, required)
                        <==> if e.kind == ImportStatement then e.specifier in imports
                             else e.specifier in required && e.specifier !in imports
  {
    var first := AddAll([], imports, ImportStatement);
    AddsEach([], imports, ImportStatement);
    AddsEach(first, required, RequireCall);
    forall specifier ensures Names(first, specifier) <==> specifier in imports {
      if specifier in imports { assert Edge(specifier, ImportStatement) in first; }
      if Names(first, specifier) {
        var i :| 0 <= i < |first| && first[i].specifier == specifier;
        assert first[i] in first;
      }
    }
  }

  ghost predicate InOrderOf(s: seq<string>, es: seq<Edge>) {
    && (forall x :: x in s <==> Names(es, x))
    && (forall i, j :: 0 <= i < j < |es| ==> StandsBefore(s, es[i].specifier, es[j].specifier))
  }

  lemma OneMoreInOrder(s: seq<string>, es: seq<Edge>, last: string, kind: Kind)
    requires InOrderOf(s, es)
    ensures InOrderOf(s + [last], if Names(es, last) then es else es + [Edge(last, kind)])
  {
    var longer, more := s + [last], if Names(es, last) then es else es + [Edge(last, kind)];
    forall x ensures x in longer <==> Names(more, x) {
      if x == last && !Names(es, last) { assert more[|es|].specifier == x; }
      if Names(es, x) {
        var i :| 0 <= i < |es| && es[i].specifier == x;
        assert more[i].specifier == x;
      }
    }
    forall i, j | 0 <= i < j < |more| ensures StandsBefore(longer, more[i].specifier, more[j].specifier) {
      if j < |es| {
        StandsBeforeLonger(s, last, es[i].specifier, es[j].specifier);
      } else {
        assert Names(es, es[i].specifier);
        StandsBeforeNew(s, last, es[i].specifier);
      }
    }
  }

  lemma {:induction false} AddsInOrder(s: seq<string>, es: seq<Edge>, specifiers: seq<string>, kind: Kind)
    requires InOrderOf(s, es)
    ensures InOrderOf(s + specifiers, AddAll(es, specifiers, kind))
    decreases |specifiers|
  {
    if specifiers == [] {
      assert s + specifiers == s;
    } else {
      var init, last := specifiers[..|specifiers| - 1], specifiers[|specifiers| - 1];
      AddsInOrder(s, es, init, kind);
      LastInOrder(s, es, specifiers, init, last, kind);
    }
  }

  lemma LastInOrder(s: seq<string>, es: seq<Edge>, specifiers: seq<string>, init: seq<string>, last: string, kind: Kind)
    requires |specifiers| > 0 && init == specifiers[..|specifiers| - 1] && last == specifiers[|specifiers| - 1]
    requires InOrderOf(s + init, AddAll(es, init, kind))
    ensures InOrderOf(s + specifiers, AddAll(es, specifiers, kind))
  {
    OneMoreInOrder(s + init, AddAll(es, init, kind), last, kind);
    SnocOn(s, specifiers);
  }

  lemma SnocOn(s: seq<string>, t: seq<string>)
    requires t != []
    ensures s + t == s + t[..|t| - 1] + [t[|t| - 1]]
  {
  }

  /** The edges come as the specifiers are first named, imports and then requires. */
  lemma EdgesInOrder(imports: seq<string>, required: seq<string>)
    ensures InOrderOf(imports + required, Edges(imports, required))
  {
    AddsInOrder([], [], imports, ImportStatement);
    assert [] + imports == imports;
    AddsInOrder(imports, AddAll([], imports, ImportStatement), required, RequireCall);
  }

  method ImportEdges(imports: seq<string>, required: seq<string>) returns (edges: seq<Edge>)
    ensures edges == Edges(imports, required)
  {
    edges := [];
    for i := 0 to |imports|
      invariant edges == AddAll([], imports[..i], ImportStatement)
    {
      assert imports[..i + 1][..i] == imports[..i];
      if !Names(edges, imports[i]) {
        edges := edges + [Edge(imports[i], ImportStatement)];
      }
    }
    assert imports[..|imports|] == imports;
    ghost var first := edges;
    for i := 0 to |required|
      invariant edges == AddAll(first, required[..i], RequireCall)
    {
      assert required[..i + 1][..i] == required[..i];
      if !Names(edges, required[i]) {
        edges := edges + [Edge(required[i], RequireCall)];
      }
    }
    assert required[..|required|] == required;
  }

  function EdgesOf(w: World, file: File): seq<Edge> {
    if w.isModule(file) && w.read(file).Parsed? then Edges(w.read(file).imports, w.read(file).required) else []
  }

  /** The edges of a readable module are its imports, and what it requires and does not import; nothing
      else has any. */
  lemma EdgesAreAsked(w: World, file: File, e: Edge)
    ensures e in EdgesOf(w, file) <==> Asks(w, file, e)
  {
    if w.isModule(file) && w.read(file).Parsed? {
      ImportWinsOverRequire(w.read(file).imports, w.read(file).required);
    }
  }

  ghost predicate Asks(w: World, file: File, e: Edge) {
    && w.isModule(file) && w.read(file).Parsed?
    && if e.kind == ImportStatement then e.specifier in w.read(file).imports
       else e.specifier in w.read(file).required && e.specifier !in w.read(file).imports
  }

  // -------------------------------------------------------- the graph they make

  predicate Refused(a: Answer) { a.errors != [] || a.path == "" }

  function Refusal(w: World, file: File, e: Edge): Unresolved {
    var found := w.resolve(file, e);
    Unresolved(file, e.specifier, if found.errors != [] then found.errors[0] else "the resolver returned no path")
  }

  predicate RefusedAt(w: World, file: File, e: Edge) {
    !w.provided(e.specifier) && Refused(w.resolve(file, e))
  }

  predicate FollowedAt(w: World, file: File, e: Edge) {
    !w.provided(e.specifier) && !Refused(w.resolve(file, e)) && !w.resolve(file, e).external
  }

  /** `to` is where one of the module `file`'s followed edges leads. */
  ghost predicate Leads(w: World, file: File, to: File) {
    exists e :: e in EdgesOf(w, file) && FollowedAt(w, file, e) && w.resolve(file, e).path == to
  }

  ghost predicate IsWalk(w: World, path: seq<File>) {
    forall i :: 0 <= i < |path| - 1 ==> Leads(w, path[i], path[i + 1])
  }

  ghost predicate WalkTo(w: World, entries: seq<File>, path: seq<File>, file: File) {
    path != [] && path[0] in entries && path[|path| - 1] == file && IsWalk(w, path)
  }

  ghost predicate Reached(w: World, entries: seq<File>, file: File) {
    exists path :: WalkTo(w, entries, path, file)
  }

  /** The graph is finite: `files` holds the entries and everything an edge leads to. */
  ghost predicate Finite(w: World, entries: seq<File>, files: set<File>) {
    && (forall f :: f in entries ==> f in files)
    && (forall f, to :: f in files && Leads(w, f, to) ==> to in files)
  }

  lemma EntryIsReached(w: World, entries: seq<File>, file: File)
    requires file in entries
    ensures Reached(w, entries, file)
  {
    assert WalkTo(w, entries, [file], file);
  }

  lemma StepIsReached(w: World, entries: seq<File>, file: File, to: File)
    requires Reached(w, entries, file) && Leads(w, file, to)
    ensures Reached(w, entries, to)
  {
    var path :| WalkTo(w, entries, path, file);
    assert WalkTo(w, entries, path + [to], to);
  }

  lemma {:induction false} ClosedHoldsWalks(w: World, entries: seq<File>, held: set<File>, path: seq<File>, file: File)
    requires WalkTo(w, entries, path, file)
    requires forall f :: f in entries ==> f in held
    requires forall f, to :: f in held && Leads(w, f, to) ==> to in held
    ensures file in held
    decreases |path|
  {
    if |path| > 1 {
      var init := path[..|path| - 1];
      forall i | 0 <= i < |init| - 1 ensures Leads(w, init[i], init[i + 1]) {
        assert Leads(w, path[i], path[i + 1]);
      }
      ClosedHoldsWalks(w, entries, held, init, init[|init| - 1]);
      assert Leads(w, path[|path| - 2], path[|path| - 1]);
    }
  }

  // ------------------------------------------------------------------ the walk

  function Refusals(w: World, file: File, es: seq<Edge>): seq<Unresolved>
    decreases |es|
  {
    if es == [] then []
    else
      var e := es[|es| - 1];
      Refusals(w, file, es[..|es| - 1]) + if RefusedAt(w, file, e) then [Refusal(w, file, e)] else []
  }

  function Followed(w: World, file: File, es: seq<Edge>): seq<File>
    decreases |es|
  {
    if es == [] then []
    else
      var e := es[|es| - 1];
      Followed(w, file, es[..|es| - 1]) + if FollowedAt(w, file, e) then [w.resolve(file, e).path] else []
  }

  ghost predicate Once(records: seq<Unresolved>) {
    forall i, j :: 0 <= i < j < |records| ==>
      records[i].file != records[j].file || records[i].specifier != records[j].specifier
  }

  /** The records hold exactly the refused edges of the files in `seen`. */
  ghost predicate RefusalsOver(w: World, seen: set<File>, records: seq<Unresolved>) {
    && (forall r :: r in records ==>
          r.file in seen && exists e :: e in EdgesOf(w, r.file) && RefusedAt(w, r.file, e) && r == Refusal(w, r.file, e))
    && (forall f, e :: f in seen && e in EdgesOf(w, f) && RefusedAt(w, f, e) ==> Refusal(w, f, e) in records)
  }

  ghost predicate UnreadableAt(w: World, file: File) { w.isModule(file) && w.read(file).Failed? }

  function Unreadable(w: World, file: File): Unresolved
    requires w.read(file).Failed?
  {
    Unresolved(file, "", w.read(file).reason)
  }

  ghost predicate UnreadableOver(w: World, seen: set<File>, records: seq<Unresolved>) {
    && (forall r :: r in records ==> r.file in seen && UnreadableAt(w, r.file) && r == Unreadable(w, r.file))
    && (forall f :: f in seen && UnreadableAt(w, f) ==> Unreadable(w, f) in records)
  }

  lemma {:induction false} RefusalsAreEdges(w: World, file: File, es: seq<Edge>)
    requires OnePerSpecifier(es)
    ensures Once(Refusals(w, file, es))
    ensures forall r :: r in Refusals(w, file, es)
                        <==> exists e :: e in es && RefusedAt(w, file, e) && r == Refusal(w, file, e)
    decreases |es|
  {
    if es != [] {
      var init, last := es[..|es| - 1], es[|es| - 1];
      RefusalsAreEdges(w, file, init);
      assert es == init + [last];
      forall r | r in Refusals(w, file, init) ensures r.specifier != last.specifier {
        var e :| e in init && RefusedAt(w, file, e) && r == Refusal(w, file, e);
      }
      forall r ensures r in Refusals(w, file, es)
                       <==> exists e :: e in es && RefusedAt(w, file, e) && r == Refusal(w, file, e)
      {
        if r in Refusals(w, file, init) {
          var e :| e in init && RefusedAt(w, file, e) && r == Refusal(w, file, e);
          assert e in es;
        }
      }
    }
  }

  lemma {:induction false} FollowedAreEdges(w: World, file: File, es: seq<Edge>)
    ensures forall to :: to in Followed(w, file, es)
                         <==> exists e :: e in es && FollowedAt(w, file, e) && w.resolve(file, e).path == to
    decreases |es|
  {
    if es != [] {
      var init, last := es[..|es| - 1], es[|es| - 1];
      FollowedAreEdges(w, file, init);
      assert es == init + [last];
      forall to ensures to in Followed(w, file, es)
                        <==> exists e :: e in es && FollowedAt(w, file, e) && w.resolve(file, e).path == to
      {
        if to in Followed(w, file, init) {
          var e :| e in init && FollowedAt(w, file, e) && w.resolve(file, e).path == to;
          assert e in es;
        }
      }
    }
  }

  lemma MoreRefusals(w: World, seen: set<File>, records: seq<Unresolved>, file: File)
    requires Once(records) && RefusalsOver(w, seen, records) && file !in seen
    ensures var all := records + Refusals(w, file, EdgesOf(w, file));
            Once(all) && RefusalsOver(w, seen + {file}, all)
  {
    var es := EdgesOf(w, file);
    if w.isModule(file) && w.read(file).Parsed? {
      ImportWinsOverRequire(w.read(file).imports, w.read(file).required);
    }
    RefusalsAreEdges(w, file, es);
    var more := Refusals(w, file, es);
    var all := records + more;
    forall r | r in more ensures r.file == file {
      var e :| e in es && RefusedAt(w, file, e) && r == Refusal(w, file, e);
    }
    assert Once(all) by {
      forall i, j | 0 <= i < j < |all|
        ensures all[i].file != all[j].file || all[i].specifier != all[j].specifier
      {
        if i < |records| <= j {
          assert records[i] in records && more[j - |records|] in more;
        }
      }
    }
    forall r | r in all
      ensures r.file in seen + {file}
      ensures exists e :: e in EdgesOf(w, r.file) && RefusedAt(w, r.file, e) && r == Refusal(w, r.file, e)
    {
      if r !in records {
        var e :| e in es && RefusedAt(w, file, e) && r == Refusal(w, file, e);
        assert r.file == file;
      }
    }
    forall f, e | f in seen + {file} && e in EdgesOf(w, f) && RefusedAt(w, f, e) ensures Refusal(w, f, e) in all {
      if f == file { assert Refusal(w, f, e) in Refusals(w, file, es); }
    }
  }

  lemma MoreUnreadable(w: World, seen: set<File>, records: seq<Unresolved>, file: File)
    requires Once(records) && UnreadableOver(w, seen, records) && file !in seen
    ensures var all := if UnreadableAt(w, file) then records + [Unreadable(w, file)] else records;
            Once(all) && UnreadableOver(w, seen + {file}, all)
  {
    forall i | 0 <= i < |records| ensures records[i].file in seen { assert records[i] in records; }
  }

  /** What the loop keeps: everything met is reached, and everything reached is met or leads on
      from something still queued. */
  ghost predicate Frontier(w: World, entries: seq<File>, files: set<File>, visited: set<File>, queue: seq<File>) {
    && (forall f :: f in queue || f in visited ==> f in files && Reached(w, entries, f))
    && (forall f :: f in entries ==> f in queue || f in visited)
    && (forall f, to :: f in visited && Leads(w, f, to) ==> to in queue || to in visited)
  }

  lemma VisitKeepsFrontier(w: World, entries: seq<File>, files: set<File>, visited: set<File>, queue: seq<File>, file: File)
    requires Finite(w, entries, files) && Frontier(w, entries, files, visited, queue + [file])
    ensures file in visited ==> Frontier(w, entries, files, visited, queue)
    ensures Frontier(w, entries, files, visited + {file}, queue + Followed(w, file, EdgesOf(w, file)))
  {
    var found := Followed(w, file, EdgesOf(w, file));
    FollowedAreEdges(w, file, EdgesOf(w, file));
    assert file in queue + [file];
    forall f | f in found ensures f in files && Reached(w, entries, f) {
      assert Leads(w, file, f);
      StepIsReached(w, entries, file, f);
    }
    forall f | f in queue || f in visited ensures f in files && Reached(w, entries, f) {
      assert f in queue + [file] || f in visited;
    }
  }

  /** A specifier the file asks for is answered with a file of the graph. */
  ghost predicate Finds(w: World, file: File, e: Edge, to: File) {
    && Asks(w, file, e) && !w.provided(e.specifier)
    && var found := w.resolve(file, e);
       found.errors == [] && found.path != "" && found.path == to && !found.external
  }

  lemma LeadsIff(w: World, file: File, to: File)
    ensures Leads(w, file, to) <==> exists e :: Finds(w, file, e, to)
  {
    if Leads(w, file, to) {
      var e :| e in EdgesOf(w, file) && FollowedAt(w, file, e) && w.resolve(file, e).path == to;
      EdgesAreAsked(w, file, e);
      assert Finds(w, file, e, to);
    }
    if e :| Finds(w, file, e, to) {
      EdgesAreAsked(w, file, e);
      assert FollowedAt(w, file, e);
    }
  }

  /** What the resolver refused: its first error, or that it returned no path. */
  ghost predicate IsRefused(w: World, r: Unresolved, e: Edge) {
    && Asks(w, r.file, e) && r.specifier == e.specifier && !w.provided(e.specifier)
    && var found := w.resolve(r.file, e);
       if found.errors != [] then r.reason == found.errors[0]
       else found.path == "" && r.reason == "the resolver returned no path"
  }

  ghost predicate IsUnreadable(w: World, r: Unresolved) {
    w.isModule(r.file) && w.read(r.file) == Failed(r.reason) && r.specifier == ""
  }

  lemma RecordsSay(w: World, visited: set<File>, unresolved: seq<Unresolved>, unreadable: seq<Unresolved>)
    requires RefusalsOver(w, visited, unresolved) && UnreadableOver(w, visited, unreadable)
    ensures forall r :: r in unresolved <==> r.file in visited && exists e :: IsRefused(w, r, e)
    ensures forall r :: r in unreadable <==> r.file in visited && IsUnreadable(w, r)
  {
    forall r ensures r in unresolved <==> r.file in visited && exists e :: IsRefused(w, r, e) {
      if r in unresolved {
        var e :| e in EdgesOf(w, r.file) && RefusedAt(w, r.file, e) && r == Refusal(w, r.file, e);
        EdgesAreAsked(w, r.file, e);
        assert IsRefused(w, r, e);
      }
      if r.file in visited && exists e :: IsRefused(w, r, e) {
        var e :| IsRefused(w, r, e);
        EdgesAreAsked(w, r.file, e);
        assert RefusedAt(w, r.file, e) && r == Refusal(w, r.file, e);
      }
    }
    forall r ensures r in unreadable <==> r.file in visited && IsUnreadable(w, r) {
      if r.file in visited && IsUnreadable(w, r) { assert UnreadableAt(w, r.file) && r == Unreadable(w, r.file); }
    }
  }

  /** The worklist of the deployed walk. */
  method Traverse(w: World, entries: seq<File>, ghost files: set<File>)
    returns (visited: set<File>, unresolved: seq<Unresolved>, unreadable: seq<Unresolved>)
    requires Finite(w, entries, files)
    ensures forall f :: f in visited <==> Reached(w, entries, f)
    ensures forall f :: f in entries ==> f in visited
    ensures forall f, e, to :: f in visited && Finds(w, f, e, to) ==> to in visited
    ensures Once(unresolved) && forall r :: r in unresolved <==> r.file in visited && exists e :: IsRefused(w, r, e)
    ensures Once(unreadable) && forall r :: r in unreadable <==> r.file in visited && IsUnreadable(w, r)
  {
    visited, unresolved, unreadable := {}, [], [];
    var queue := entries;
    forall f | f in queue ensures Reached(w, entries, f) { EntryIsReached(w, entries, f); }
    while queue != []
      invariant Frontier(w, entries, files, visited, queue)
      invariant Once(unresolved) && RefusalsOver(w, visited, unresolved)
      invariant Once(unreadable) && UnreadableOver(w, visited, unreadable)
      decreases files - visited, |queue|
    {
      var file := queue[|queue| - 1];
      assert queue == queue[..|queue| - 1] + [file];
      assert file in files;
      queue := queue[..|queue| - 1];
      VisitKeepsFrontier(w, entries, files, visited, queue, file);
      if file in visited { continue; }
      MoreRefusals(w, visited, unresolved, file);
      MoreUnreadable(w, visited, unreadable, file);
      visited := visited + {file};
      if !w.isModule(file) {
        continue;
      }
      if w.read(file).Failed? {
        unreadable := unreadable + [Unresolved(file, "", w.read(file).reason)];
        continue;
      }
      var refused, found := FollowEdges(w, file);
      unresolved := unresolved + refused;
      queue := queue + found;
    }
    forall f | Reached(w, entries, f) ensures f in visited {
      var path :| WalkTo(w, entries, path, f);
      ClosedHoldsWalks(w, entries, visited, path, f);
    }
    forall f, e, to | f in visited && Finds(w, f, e, to) ensures to in visited { LeadsIff(w, f, to); }
    RecordsSay(w, visited, unresolved, unreadable);
  }

  /** The walk's inner loop, over one readable module's edges. */
  method FollowEdges(w: World, file: File) returns (refused: seq<Unresolved>, found: seq<File>)
    requires w.isModule(file) && w.read(file).Parsed?
    ensures refused == Refusals(w, file, EdgesOf(w, file))
    ensures found == Followed(w, file, EdgesOf(w, file))
  {
    refused, found := [], [];
    var edges := ImportEdges(w.read(file).imports, w.read(file).required);
    for i := 0 to |edges|
      invariant refused == Refusals(w, file, edges[..i])
      invariant found == Followed(w, file, edges[..i])
    {
      assert edges[..i + 1][..i] == edges[..i];
      if w.provided(edges[i].specifier) { continue; }
      var answer := w.resolve(file, edges[i]);
      if answer.errors != [] || answer.path == "" {
        refused := refused + [Refusal(w, file, edges[i])];
        continue;
      }
      if !answer.external { found := found + [answer.path]; }
    }
    assert edges[..|edges|] == edges;
  }
}
