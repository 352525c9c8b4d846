/** Which entries the console looks a name up in: laws of lookup stated on the entry tables and
    on the tables attached to each category. */
module CliLookup {
  import opened Seqs
  import opened CliDirs

  /** Entry i of table t has the name, or has it for its abbreviation. */
  predicate Hit(w: Tables, t: nat, i: nat, name: string) {
    && t < |w.entries| && i < |w.entries[t]|
    && (w.entries[t][i].name == name || w.entries[t][i].abbr == Some(name))
  }

  /** No entry of the table from entry t on has the name. */
  ghost predicate NoHit(w: Tables, t: Ref, name: string) {
    forall i :: t.index <= i ==> !Hit(w, t.table, i, name)
  }

  /** r is the first entry from entry t on that has the name. */
  ghost predicate FirstHit(w: Tables, t: Ref, name: string, r: Ref) {
    && r.table == t.table && t.index <= r.index && Hit(w, r.table, r.index, name)
    && forall i :: t.index <= i < r.index ==> !Hit(w, r.table, i, name)
  }

  /** r is the first hit in table k of q, and there is none in the tables before it. */
  ghost predicate HitIn(w: Tables, q: seq<Ref>, name: string, r: Ref, k: nat) {
    k < |q| && FirstHit(w, q[k], name, r) && forall j :: 0 <= j < k ==> NoHit(w, q[j], name)
  }

  /** m is the first hit in the first of the tables q that has one, and None if none has. */
  ghost predicate FoundIn(w: Tables, q: seq<Ref>, name: string, m: Option<Ref>) {
    match m
    case None => forall k :: 0 <= k < |q| ==> NoHit(w, q[k], name)
    case Some(r) => exists k :: HitIn(w, q, name, r, k)
  }

  lemma {:induction false} SearchFinds(w: Tables, name: string, t: Ref)
    requires RefOk(w, t)
    ensures var m := Search(w, name, t); if m.Some? then FirstHit(w, t, name, m.value) else NoHit(w, t, name)
    decreases |w.entries[t.table]| - t.index
  {
    if !Matches(At(w, t), name) && t.index + 1 < |w.entries[t.table]| {
      SearchFinds(w, name, Ref(t.table, t.index + 1));
    }
  }

  lemma {:induction false} SearchAllFinds(w: Tables, name: string, q: seq<Ref>)
    requires RefsOk(w, q)
    ensures FoundIn(w, q, name, SearchAll(w, name, q))
  {
    hide Search, FirstHit, NoHit;
    if q != [] {
      SearchFinds(w, name, q[0]);
      assert RefsOk(w, q[1..]);
      var m := SearchAll(w, name, q);
      if Search(w, name, q[0]).Some? {
        assert HitIn(w, q, name, m.value, 0);
      } else {
        SearchAllFinds(w, name, q[1..]);
        if m.Some? {
          var k: nat :| HitIn(w, q[1..], name, m.value, k);
          assert HitIn(w, q, name, m.value, k + 1) by {
            forall j | 0 <= j < k + 1 ensures NoHit(w, q[j], name) { if j > 0 { assert q[j] == q[1..][j - 1]; } }
          }
        } else {
          forall k | 0 <= k < |q| ensures NoHit(w, q[k], name) { if k > 0 { assert q[k] == q[1..][k - 1]; } }
        }
      }
    }
  }

  lemma {:induction false} OneTable(w: Tables, name: string, t: Ref)
    requires RefOk(w, t)
    ensures FoundIn(w, [t], name, Search(w, name, t))
  {
    hide Search;
    SearchFinds(w, name, t);
    if Search(w, name, t).Some? { assert HitIn(w, [t], name, Search(w, name, t).value, 0); }
  }

  /** The tables that stand below an entry looked into: those attached to the category whose
      name it has, or else the one it begins. */
  function StandsFor(w: Tables, r: Ref): seq<Ref>
    requires RefOk(w, r)
  {
    var name := w.entries[r.table][r.index].name;
    if name == "app" then w.app else if name == "mw" then w.mw else [r]
  }

  predicate IsCategory(w: Tables, r: Ref)
    requires RefOk(w, r)
  {
    w.entries[r.table][r.index].name == "app" || w.entries[r.table][r.index].name == "mw"
  }

  /** A component of a command is looked up in all tables of the root, in those attached to the
      applications or to the middleware below an entry with the name of that category, and
      otherwise in one table: always the first hit of the first table that has one. */
  lemma {:induction false} FirstFinds(w: Tables, name: string, tbl: Option<Ref>)
    requires TablesOk(w) && (tbl.Some? ==> RefOk(w, tbl.value))
    ensures FoundIn(w, if tbl.None? then w.root else StandsFor(w, tbl.value), name, First(w, name, tbl))
  {
    hide Search, SearchAll, FoundIn;
    SearchAllFinds(w, name, w.root);
    SearchAllFinds(w, name, w.app);
    SearchAllFinds(w, name, w.mw);
    if tbl.Some? { OneTable(w, name, tbl.value); }
  }

  /** The next component is looked up in the tables of the category the entry m names, or in the
      table below it. */
  lemma {:induction false} BelowFinds(w: Tables, name: string, m: Ref)
    requires TablesOk(w) && RefOk(w, m) && At(w, m).next.Some?
    ensures RefOk(w, At(w, m).next.value) && Below(w, m).Some? && RefOk(w, Below(w, m).value)
    ensures var stands := StandsFor(w, if IsCategory(w, m) then m else At(w, m).next.value);
      FoundIn(w, stands, name, First(w, name, Below(w, m)))
  {
    hide First, FoundIn;
    assert EntryOk(w, At(w, m));
    FirstFinds(w, name, Below(w, m));
  }

  /** In a directory a name is looked up in the tables of the root without the mandatory one, in
      those of the category the top of the stack names, or in the table below that top. */
  lemma {:induction false} LookupFinds(w: Tables, s: Dir, name: string)
    requires TablesOk(w) && DirOk(w, s)
    ensures s.link == [] ==> FoundIn(w, w.root[1..], name, Lookup(w, s, name))
    ensures s.link != [] ==>
      (var top := s.link[|s.link| - 1];
       && RefOk(w, top) && At(w, top).next.Some?
       && var tables := if IsCategory(w, top) then StandsFor(w, top) else [At(w, top).next.value];
          FoundIn(w, tables, name, Lookup(w, s, name)))
  {
    hide Search, SearchAll, FoundIn;
    CurOk(w, s);
    if s.link == [] {
      assert RefsOk(w, w.root[1..]);
      SearchAllFinds(w, name, w.root[1..]);
    } else {
      var top := s.link[|s.link| - 1];
      assert RefOk(w, top) && EntryOk(w, At(w, top));
      SearchAllFinds(w, name, w.app);
      SearchAllFinds(w, name, w.mw);
      OneTable(w, name, At(w, top).next.value);
    }
  }

  // ---------- cd, one component at a time ----------

  /** A descent succeeds exactly if the name is found and has a table below it. It puts the entry
      on the stack, or empties the stack at the depth limit; a failed one changes nothing. */
  lemma {:induction false} DownSteps(w: Tables, s: Dir, name: string)
    requires TablesOk(w) && DirOk(w, s)
    ensures var m := Lookup(w, s, name); var (c, t) := Down(w, s, name);
      && (c == OK <==> m.Some? && At(w, m.value).next.Some?)
      && (c != OK ==> t == s)
      && (c == OK ==> t.link == if |s.link| < 7 then s.link + [m.value] else [])
  {
    DownOk(w, s, name);
  }

  /** `..` takes the last directory off the stack and leaves the root alone, `/` empties the
      stack, and the rest of the path follows; a single dot at the start of a component fails. */
  lemma {:induction false} CdSigns(w: Tables, s: Dir, path: string)
    requires TablesOk(w) && DirOk(w, s)
    ensures DirOk(w, Up(w, s)) && Up(w, s).link == if s.link == [] then [] else s.link[..|s.link| - 1]
    ensures CdS(w, s, ".." + path) == CdS(w, Up(w, s), path)
    ensures CdS(w, s, "/" + path) == CdS(w, Dir([], None, false), path)
    ensures path == [] || path[0] != '.' ==> CdS(w, s, "." + path) == (DirNotFound, s)
  {
    UpOk(w, s);
    if s.link != [] { DirOfOk(w, s.link[..|s.link| - 1]); }
    assert (".." + path)[2..] == path && ("/" + path)[1..] == path;
    assert |path| > 0 ==> ("." + path)[1] == path[0];
  }
}
