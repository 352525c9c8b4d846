/** The console's `cd` and command lookup as they run: a directory stack changed in place,
    and loops over paths and tables. Each does what its CliDirs function computes. */
module CliConsole {
  import opened Seqs
  import opened CliDirs

  /** The length of the component at position p. */
  method HeadLength(path: string, p: nat) returns (n: nat)
    requires p <= |path|
    ensures p + n <= |path| && n == |Head(path[p..])| && path[p..p + n] == Head(path[p..])
  {
    n := 0;
    while p + n < |path| && path[p + n] != '.'
      invariant p + n <= |path| && forall j :: p <= j < p + n ==> path[j] != '.'
    {
      n := n + 1;
    }
    HeadIs(path, p, n);
  }

  lemma {:induction false} HeadIs(path: string, p: nat, n: nat)
    requires p + n <= |path| && (forall j :: p <= j < p + n ==> path[j] != '.')
    requires (p + n < |path| ==> path[p + n] == '.')
    ensures Head(path[p..]) == path[p..p + n]
    decreases n
  {
    if p < |path| { assert path[p..][0] == path[p] && path[p..][1..] == path[p + 1..]; }
    if n > 0 {
      HeadIs(path, p + 1, n - 1);
      assert path[p..p + n] == [path[p]] + path[p + 1..p + n];
    }
  }

  /** _search_tbl */
  method SearchTable(w: Tables, path: string, p: nat, r: Ref) returns (m: Option<Ref>)
    requires TablesOk(w) && RefOk(w, r) && p <= |path|
    ensures m == Search(w, Head(path[p..]), r)
  {
    var n := HeadLength(path, p);
    var i := r.index;
    while i < |w.entries[r.table]|
      invariant r.index <= i <= |w.entries[r.table]|
      invariant Search(w, Head(path[p..]), r)
             == if i < |w.entries[r.table]| then Search(w, Head(path[p..]), Ref(r.table, i)) else None
    {
      var e := w.entries[r.table][i];
      if n == |e.name| && e.name == path[p..p + n] {
        return Some(Ref(r.table, i));
      }
      if e.abbr.Some? {
        if n == |e.abbr.value| && e.abbr.value == path[p..p + n] {
          return Some(Ref(r.table, i));
        }
      }
      i := i + 1;
    }
    return None;
  }

  /** The loop over the tables of a category. */
  method SearchTables(w: Tables, path: string, p: nat, q: seq<Ref>) returns (m: Option<Ref>)
    requires TablesOk(w) && RefsOk(w, q) && p <= |path|
    ensures m == SearchAll(w, Head(path[p..]), q)
  {
    var i := 0;
    while i < |q|
      invariant i <= |q| && SearchAll(w, Head(path[p..]), q) == SearchAll(w, Head(path[p..]), q[i..])
    {
      m := SearchTable(w, path, p, q[i]);
      if m.Some? {
        return;
      }
      assert q[i..][1..] == q[i + 1..];
      i := i + 1;
    }
    m := None;
  }

  class Console {
    const dirLink: array<Option<Ref>>
    var linkIdx: nat
    var cur: Option<Ref>
    var isTable: bool
    const w: Tables
    ghost var dir: Dir

    ghost predicate Valid()
      reads this, dirLink
    {
      && TablesOk(w) && DirOk(w, dir) && dirLink.Length == MAX_LEVEL
      && linkIdx == |dir.link| && cur == dir.cur && isTable == dir.isTable
      && forall i :: 0 <= i < linkIdx ==> dirLink[i + 1] == Some(dir.link[i])
    }

    /** _cli_parser_init */
    constructor (tables: Tables)
      requires TablesOk(tables)
      ensures Valid() && w == tables && dir == ROOT_DIR && fresh(dirLink)
    {
      w := tables;
      dirLink := new Option<Ref>[MAX_LEVEL](_ => None);
      linkIdx, cur, isTable, dir := 0, None, false, ROOT_DIR;
    }

    method ToRoot()
      requires Valid()
      modifies this
      ensures Valid() && dir == ROOT_DIR
    {
      linkIdx := 0;
      cur, isTable := None, false;
      dir := ROOT_DIR;
    }

    /** Make the top of the stack the current directory. */
    method Enter(ghost link: seq<Ref>)
      requires TablesOk(w) && dirLink.Length == MAX_LEVEL && RefsOk(w, link) && 0 < |link| == linkIdx < MAX_LEVEL
      requires forall i :: 0 <= i < |link| ==> At(w, link[i]).next.Some? && dirLink[i + 1] == Some(link[i])
      modifies this
      ensures Valid() && dir == DirOf(w, link)
    {
      DirOfOk(w, link);
      var top := dirLink[linkIdx].value;
      assert top == link[|link| - 1];
      if IsArray(w, Some(top)) {
        cur, isTable := Some(top), false;
      } else {
        cur, isTable := At(w, top).next, true;
      }
      dir := DirOf(w, link);
    }

    /** `cd ..` */
    method GoUp()
      requires Valid()
      modifies this
      ensures Valid() && dir == Up(w, old(dir))
    {
      CurOk(w, dir);
      if linkIdx > 0 {
        linkIdx := linkIdx - 1;
        if linkIdx == 0 {
          cur, isTable := None, false;
          dir := ROOT_DIR;
        } else {
          Enter(dir.link[..linkIdx]);
        }
      }
    }

    /** The component of the path at p, looked up in the current directory. */
    method Find(path: string, p: nat) returns (m: Option<Ref>)
      requires Valid() && p <= |path|
      ensures m == Lookup(w, dir, Head(path[p..]))
    {
      CurOk(w, dir);
      if isTable {
        m := SearchTable(w, path, p, cur.value);
      } else {
        m := SearchTables(w, path, p, ArrayOf(w, cur, true));
      }
    }

    /** `cd` into the component at p. */
    method GoDown(path: string, p: nat) returns (ok: bool)
      requires Valid() && p <= |path|
      modifies this, dirLink
      ensures Valid() && (if ok then CliDirs.Code.OK else DirNotFound, dir) == Down(w, old(dir), Head(path[p..]))
    {
      var m := Find(path, p);
      if m.None? || At(w, m.value).next.None? {
        return false;
      }
      if linkIdx < MAX_LEVEL - 1 {
        ghost var link := dir.link;
        linkIdx := linkIdx + 1;
        dirLink[linkIdx] := m;
        Enter(link + [m.value]);
      } else {
        ToRoot();
      }
      return true;
    }

    /** One turn of the loop of `cd`: the path goes on at r, or the directory was not found. */
    method PathStep(path: string, p: nat) returns (r: nat, ok: bool)
      requires Valid() && p < |path|
      modifies this, dirLink
      ensures Valid() && p < r <= |path|
      ensures CdS(w, old(dir), path[p..]) == if ok then CdS(w, dir, path[r..]) else (DirNotFound, dir)
    {
      hide Up, Down, Head, CdS, DirOk;
      CdStep(w, dir, path, p);
      r, ok := p, true;
      if path[r] == '.' {
        r := r + 1;
        if r < |path| && path[r] == '.' {
          r := r + 1;
          GoUp();
        } else {
          ok := false;
        }
      } else if path[r] == '/' {
        r := r + 1;
        ToRoot();
      } else {
        ok := GoDown(path, r);
        var n := HeadLength(path, r);
        HeadStep(path, r);
        r := r + n;
        if r < |path| && path[r] == '.' {
          r := r + 1;
        }
      }
    }

    /** _cli_cmd_change_dir, given its one argument. */
    method ChangeDir(path: string) returns (r: CliDirs.Code)
      requires Valid()
      modifies this, dirLink
      ensures Valid() && (r, dir) == CdS(w, old(dir), path)
    {
      hide Up, Down, Head, CdS, DirOk;
      var p := 0;
      assert path[0..] == path;
      while p < |path|
        invariant p <= |path| && Valid() && CdS(w, dir, path[p..]) == CdS(w, old(dir), path)
        decreases |path| - p
      {
        var ok;
        p, ok := PathStep(path, p);
        if !ok {
          return DirNotFound;
        }
      }
      CdNothing(w, dir, path[p..]);
      return CliDirs.Code.OK;
    }

    /** _parse_cmd: rest is what it leaves of the first argument. */
    method ParseCmd(argc: nat, path: string, tbl: Option<Ref>) returns (o: Outcome, rest: string)
      requires Valid() && (tbl.Some? ==> RefOk(w, tbl.value))
      ensures (o, rest) == ParseS(w, argc, path, tbl)
      decreases |path|
    {
      hide Head, Search, SearchAll;
      assert path[0..] == path;
      var n := HeadLength(path, 0);
      var m;
      if IsArray(w, tbl) {
        m := SearchTables(w, path, 0, ArrayOf(w, tbl, false));
      } else {
        m := SearchTable(w, path, 0, tbl.value);
      }
      assert m == First(w, Head(path), tbl);
      if m.Some? {
        var e := At(w, m.value);
        if e.next.None? && e.exec.None? {
          if !IsArray(w, m) {
            return BadTable, path;
          }
        }
        if e.exec.Some? {
          if e.next.None? || (n == |path| && argc > 1) {
            return Runs(e.exec.value, path), path;
          }
        }
        if e.next.Some? {
          if n == |path| {
            return (if argc == 1 then ShowsHelp else NoCommand), path;
          }
          o, rest := ParseCmd(argc, path[n + 1..], if IsArray(w, m) then m else e.next);
          return;
        }
      }
      return NoCommand, path;
    }

    /** cli_parser, once the line is split: arguments there are, the first is path. */
    method Command(argc: nat, path: string) returns (o: Outcome)
      requires Valid() && argc > 0
      ensures o == CommandS(w, dir, argc, path)
    {
      CurOk(w, dir);
      var rest;
      o, rest := ParseCmd(argc, path, Some(w.root[0]));
      if o == NoCommand {
        o, rest := ParseCmd(argc, rest, cur);
      }
    }
  }

  lemma {:induction false} CdNothing(w: Tables, s: Dir, path: string)
    requires TablesOk(w) && DirOk(w, s)
    ensures path == [] ==> CdS(w, s, path) == (CliDirs.Code.OK, s)
  {}

  /** One turn of the loop over the path. */
  lemma {:induction false} CdStep(w: Tables, s: Dir, path: string, p: nat)
    requires TablesOk(w) && DirOk(w, s) && p < |path|
    ensures DirOk(w, Up(w, s)) && DirOk(w, Down(w, s, Head(path[p..])).1)
    ensures path[p] == '.' && p + 1 < |path| && path[p + 1] == '.' ==>
      CdS(w, s, path[p..]) == CdS(w, Up(w, s), path[p + 2..])
    ensures path[p] == '.' && !(p + 1 < |path| && path[p + 1] == '.') ==> CdS(w, s, path[p..]) == (DirNotFound, s)
    ensures path[p] == '/' ==> CdS(w, s, path[p..]) == CdS(w, ROOT_DIR, path[p + 1..])
    ensures var (c, t) := Down(w, s, Head(path[p..])); path[p] != '.' && path[p] != '/' ==>
      CdS(w, s, path[p..]) == (if c == CliDirs.Code.OK then CdS(w, t, Behind(path[p..])) else (DirNotFound, s))
    ensures var (c, t) := Down(w, s, Head(path[p..])); c == DirNotFound ==> t == s
  {
    UpOk(w, s);
    DownOk(w, s, Head(path[p..]));
    assert path[p..][0] == path[p];
    if p + 1 < |path| { assert path[p..][1] == path[p + 1] && path[p..][2..] == path[p + 2..]; }
    assert path[p..][1..] == path[p + 1..];
  }

  lemma {:induction false} HeadStep(path: string, p: nat)
    requires p < |path|
    ensures var n := |Head(path[p..])|;
      && p + n <= |path| && (p + n < |path| ==> path[p + n] == '.') && (path[p] != '.' ==> n > 0)
      && Behind(path[p..]) == path[if p + n < |path| then p + n + 1 else |path|..]
  {
    var n := |Head(path[p..])|;
    assert path[p..][0] == path[p];
    if p + n < |path| { assert path[p..][n] == path[p + n] && path[p..][n + 1..] == path[p + n + 1..]; }
  }
}
