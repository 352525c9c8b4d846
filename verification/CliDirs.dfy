/** Directories and dotted commands of the console (cli/cli_parser.c): looking a name up in
    the command tables, `cd`, and finding the command to run. */
module CliDirs {
  import opened Seqs

  const MAX_LEVEL: nat := 8

  /** The address of an entry; an entry table is addressed by its first entry. */
  datatype Ref = Ref(table: nat, index: nat)

  /** CLI_EXEC_T. exec is the function's number; next the table below, by its first entry. */
  datatype Entry = Entry(name: string, abbr: Option<string>, exec: Option<nat>, next: Option<Ref>)

  /** All entry tables, each without its terminator, and the tables attached to the three
      categories. The first table of the root is the mandatory one. */
  datatype Tables = Tables(entries: seq<seq<Entry>>, root: seq<Ref>, app: seq<Ref>, mw: seq<Ref>)

  /** Every address points at an entry. */
  predicate RefOk(w: Tables, r: Ref) {
    r.table < |w.entries| && r.index < |w.entries[r.table]|
  }

  predicate RefsOk(w: Tables, q: seq<Ref>) {
    forall i :: 0 <= i < |q| ==> RefOk(w, q[i])
  }

  predicate EntryOk(w: Tables, e: Entry) {
    e.next.Some? ==> RefOk(w, e.next.value)
  }

  predicate TablesOk(w: Tables) {
    && RefsOk(w, w.root) && RefsOk(w, w.app) && RefsOk(w, w.mw) && w.root != []
    && forall t, i :: 0 <= t < |w.entries| && 0 <= i < |w.entries[t]| ==> EntryOk(w, w.entries[t][i])
  }

  function At(w: Tables, r: Ref): Entry
    requires RefOk(w, r)
  {
    w.entries[r.table][r.index]
  }

  /** _is_cmd_tbl_array: the root, or an entry for one of the other categories. */
  predicate IsArray(w: Tables, r: Option<Ref>)
    requires r.Some? ==> RefOk(w, r.value)
  {
    r.None? || At(w, r.value).name == "app" || At(w, r.value).name == "mw"
  }

  /** _get_cmd_tbl_array */
  function ArrayOf(w: Tables, r: Option<Ref>, skipMandatory: bool): seq<Ref>
    requires TablesOk(w) && (r.Some? ==> RefOk(w, r.value))
  {
    if r.None? then (if skipMandatory then w.root[1..] else w.root)
    else if At(w, r.value).name == "app" then w.app
    else if At(w, r.value).name == "mw" then w.mw
    else []
  }

  /** The part of a path in front of its first dot. */
  function Head(path: string): (h: string)
    ensures |h| <= |path| && h == path[..|h|] && '.' !in h && (|h| < |path| ==> path[|h|] == '.')
  {
    if path == [] || path[0] == '.' then "" else [path[0]] + Head(path[1..])
  }

  predicate Matches(e: Entry, name: string) {
    e.name == name || e.abbr == Some(name)
  }

  /** _search_tbl: the first match in the table from entry r on. */
  function Search(w: Tables, name: string, r: Ref): (m: Option<Ref>)
    requires RefOk(w, r)
    ensures m.Some? ==> RefOk(w, m.value) && m.value.table == r.table && Matches(At(w, m.value), name)
    decreases |w.entries[r.table]| - r.index
  {
    if Matches(At(w, r), name) then Some(r)
    else if r.index + 1 < |w.entries[r.table]| then Search(w, name, Ref(r.table, r.index + 1))
    else None
  }

  /** The first match in a list of tables. */
  function SearchAll(w: Tables, name: string, q: seq<Ref>): (m: Option<Ref>)
    requires RefsOk(w, q)
    ensures m.Some? ==> RefOk(w, m.value) && Matches(At(w, m.value), name)
  {
    if q == [] then None
    else if Search(w, name, q[0]).Some? then Search(w, name, q[0])
    else assert RefsOk(w, q[1..]); SearchAll(w, name, q[1..])
  }

  // ---------- cd ----------

  /** apt_dir_link[1..idx], pt_cur_cmd_tbl and b_is_cmd_tbl. */
  datatype Dir = Dir(link: seq<Ref>, cur: Option<Ref>, isTable: bool)

  const ROOT_DIR := Dir([], None, false)

  datatype Code = OK | DirNotFound

  /** The depth is within bounds, and the current directory is the one the top of the stack
      determines. */
  predicate DirOk(w: Tables, s: Dir)
    requires TablesOk(w)
  {
    && |s.link| < MAX_LEVEL && RefsOk(w, s.link)
    && (forall i :: 0 <= i < |s.link| ==> At(w, s.link[i]).next.Some?)
    && (s.link == [] ==> s.cur.None? && !s.isTable)
    && (s.link != [] ==> var top := s.link[|s.link| - 1];
        if IsArray(w, Some(top)) then s.cur == Some(top) && !s.isTable else s.cur == At(w, top).next && s.isTable)
  }

  /** The directory with the given stack. */
  function DirOf(w: Tables, link: seq<Ref>): Dir
    requires RefsOk(w, link)
  {
    if link == [] then ROOT_DIR
    else
      var top := link[|link| - 1];
      if IsArray(w, Some(top)) then Dir(link, Some(top), false) else Dir(link, At(w, top).next, true)
  }

  function Up(w: Tables, s: Dir): Dir
    requires TablesOk(w) && RefsOk(w, s.link)
  {
    if s.link == [] then s else DirOf(w, s.link[..|s.link| - 1])
  }

  /** The entry a name stands for in the current directory. */
  function Lookup(w: Tables, s: Dir, name: string): (m: Option<Ref>)
    requires TablesOk(w) && DirOk(w, s)
    ensures m.Some? ==> RefOk(w, m.value) && Matches(At(w, m.value), name)
  {
    if s.isTable then CurOk(w, s); Search(w, name, s.cur.value)
    else CurOk(w, s); SearchAll(w, name, ArrayOf(w, s.cur, true))
  }

  lemma {:induction false} CurOk(w: Tables, s: Dir)
    requires TablesOk(w) && DirOk(w, s)
    ensures s.cur.Some? ==> RefOk(w, s.cur.value)
    ensures s.isTable ==> s.cur.Some?
    ensures s.link == [] <==> s.cur.None?
    ensures s == DirOf(w, s.link)
    ensures s.cur.None? || s.cur.Some? ==> RefsOk(w, if s.cur.None? then w.root[1..] else w.app)
  {
    if s.link != [] {
      var top := s.link[|s.link| - 1];
      assert RefOk(w, top) && EntryOk(w, At(w, top));
    }
  }

  /** Descend into a named directory. At the depth limit the console returns to the root. */
  function Down(w: Tables, s: Dir, name: string): (Code, Dir)
    requires TablesOk(w) && DirOk(w, s)
  {
    var m := Lookup(w, s, name);
    if m.None? || At(w, m.value).next.None? then (DirNotFound, s)
    else if |s.link| < MAX_LEVEL - 1 then
      assert RefsOk(w, s.link + [m.value]);
      (OK, DirOf(w, s.link + [m.value]))
    else (OK, ROOT_DIR)
  }

  lemma {:induction false} DirOfOk(w: Tables, link: seq<Ref>)
    requires TablesOk(w) && RefsOk(w, link) && |link| < MAX_LEVEL
    requires forall i :: 0 <= i < |link| ==> At(w, link[i]).next.Some?
    ensures DirOk(w, DirOf(w, link)) && DirOf(w, link).link == link
  {}

  lemma {:induction false} UpOk(w: Tables, s: Dir)
    requires TablesOk(w) && DirOk(w, s)
    ensures DirOk(w, Up(w, s))
  {
    if s.link != [] { DirOfOk(w, s.link[..|s.link| - 1]); }
  }

  lemma {:induction false} DownOk(w: Tables, s: Dir, name: string)
    requires TablesOk(w) && DirOk(w, s)
    ensures DirOk(w, Down(w, s, name).1)
  {
    var m := Lookup(w, s, name);
    if m.Some? && At(w, m.value).next.Some? && |s.link| < MAX_LEVEL - 1 { DirOfOk(w, s.link + [m.value]); }
  }

  /** The path behind a component and the dot that ends it. */
  function Behind(path: string): (r: string)
    ensures path != [] && path[0] != '.' ==> |r| < |path|
  {
    var h := Head(path);
    if |h| < |path| then path[|h| + 1..] else []
  }

  /** _cli_cmd_change_dir: `..`, `/` and names, from left to right. */
  function CdS(w: Tables, s: Dir, path: string): (r: (Code, Dir))
    requires TablesOk(w) && DirOk(w, s)
    ensures DirOk(w, r.1)
    decreases |path|
  {
    if path == [] then (OK, s)
    else if path[0] == '.' then
      if |path| > 1 && path[1] == '.' then UpOk(w, s); CdS(w, Up(w, s), path[2..]) else (DirNotFound, s)
    else if path[0] == '/' then CdS(w, ROOT_DIR, path[1..])
    else
      var (c, t) := Down(w, s, Head(path));
      DownOk(w, s, Head(path));
      if c == OK then CdS(w, t, Behind(path)) else (DirNotFound, s)
  }

  /** A name that can be a path component: no dot, and not the root sign first. */
  predicate IsName(name: string) {
    name != [] && '.' !in name && name[0] != '/'
  }

  lemma {:induction false} HeadOfName(name: string, rest: string)
    requires '.' !in name && (rest != [] ==> rest[0] == '.')
    ensures Head(name + rest) == name
  {
    if name == [] {
      assert name + rest == rest;
    } else {
      assert name[0] in name && (name + rest)[1..] == name[1..] + rest;
      HeadOfName(name[1..], rest);
    }
  }

  lemma {:induction false} CdName(w: Tables, s: Dir, name: string)
    requires TablesOk(w) && DirOk(w, s) && IsName(name)
    ensures CdS(w, s, name) == Down(w, s, name)
  {
    HeadOfName(name, "");
    assert name + "" == name && name[0] in name;
  }

  /** `cd a.p` is `cd a` followed, if that succeeds, by `cd p`. */
  lemma {:induction false} CdDotted(w: Tables, s: Dir, name: string, path: string)
    requires TablesOk(w) && DirOk(w, s) && IsName(name)
    ensures CdS(w, s, name + "." + path) ==
      (if CdS(w, s, name).0 == OK then CdS(w, CdS(w, s, name).1, path) else (DirNotFound, s))
  {
    CdName(w, s, name);
    var p := name + "." + path;
    assert p == name + ("." + path) && name[0] in name && p[0] == name[0];
    HeadOfName(name, "." + path);
    assert Behind(p) == path;
  }

  function Join(names: seq<string>): string {
    if names == [] then "" else if |names| == 1 then names[0] else names[0] + "." + Join(names[1..])
  }

  /** The descents into a, b, c in turn, as far as they succeed. */
  function Descend(w: Tables, s: Dir, names: seq<string>): (r: (Code, Dir))
    requires TablesOk(w) && DirOk(w, s)
    ensures DirOk(w, r.1)
    decreases |names|
  {
    if names == [] then (OK, s)
    else
      var (c, t) := Down(w, s, names[0]);
      DownOk(w, s, names[0]);
      if c == OK then Descend(w, t, names[1..]) else (c, s)
  }

  /** `cd a.b.c` is the descents into a, b and c in turn. */
  lemma {:induction false} CdIsDescents(w: Tables, s: Dir, names: seq<string>)
    requires TablesOk(w) && DirOk(w, s) && forall i :: 0 <= i < |names| ==> IsName(names[i])
    ensures CdS(w, s, Join(names)) == Descend(w, s, names)
    decreases |names|
  {
    if names != [] {
      assert IsName(names[0]);
      CdName(w, s, names[0]);
      if |names| > 1 {
        CdDotted(w, s, names[0], Join(names[1..]));
        if CdS(w, s, names[0]).0 == OK { CdIsDescents(w, CdS(w, s, names[0]).1, names[1..]); }
      }
    }
  }

  /** `cd name` followed by `cd ..` restores the directory exactly if the depth limit was not
      reached; at the limit the descent itself returns to the root. */
  lemma {:induction false} UpUndoesDown(w: Tables, s: Dir, name: string)
    requires TablesOk(w) && DirOk(w, s) && CdS(w, s, name).0 == OK && IsName(name)
    ensures CdS(w, CdS(w, s, name).1, "..") == (OK, s) <==> |s.link| < MAX_LEVEL - 1
    ensures |s.link| == MAX_LEVEL - 1 ==> CdS(w, s, name).1 == ROOT_DIR
  {
    CdName(w, s, name);
    CurOk(w, s);
    DownOk(w, s, name);
    var t := Down(w, s, name).1;
    CdUp(w, t);
    hide CdS, Lookup;
    if |s.link| < MAX_LEVEL - 1 {
      var m := Lookup(w, s, name).value;
      assert (s.link + [m])[..|s.link|] == s.link;
    }
  }

  lemma {:induction false} CdUp(w: Tables, s: Dir)
    requires TablesOk(w) && DirOk(w, s)
    ensures CdS(w, s, "..") == (OK, Up(w, s))
  {
    UpOk(w, s);
    assert ".."[2..] == "";
  }

  /** On every path the invariant is kept: the depth stays below the limit, the depth is 0
      exactly if there is no current table, and otherwise current table and kind are those of
      the top of the stack. */
  lemma {:induction false} CdKeepsDir(w: Tables, s: Dir, path: string)
    requires TablesOk(w) && DirOk(w, s)
    ensures var t := CdS(w, s, path).1;
      |t.link| <= 7 && (t.link == [] <==> t.cur.None?) && RefsOk(w, t.link) && t == DirOf(w, t.link)
  {
    CurOk(w, CdS(w, s, path).1);
  }

  // ---------- commands ----------

  /** What a command comes to: the function that runs and the first argument it is given, or
      help for a directory, an entry with neither function nor table, or no such command. */
  datatype Outcome = Runs(exec: nat, arg0: string) | ShowsHelp | BadTable | NoCommand

  /** The first match for a name below tbl: in the tables of a category, or in a table. */
  function First(w: Tables, name: string, tbl: Option<Ref>): (m: Option<Ref>)
    requires TablesOk(w) && (tbl.Some? ==> RefOk(w, tbl.value))
    ensures m.Some? ==> RefOk(w, m.value) && EntryOk(w, At(w, m.value))
  {
    if IsArray(w, tbl) then SearchAll(w, name, ArrayOf(w, tbl, false)) else Search(w, name, tbl.value)
  }

  /** Where the next component is looked up. */
  function Below(w: Tables, m: Ref): Option<Ref>
    requires RefOk(w, m)
  {
    if IsArray(w, Some(m)) then Some(m) else At(w, m).next
  }

  /** _parse_cmd: the outcome, and what is left of the first argument. */
  function ParseS(w: Tables, argc: nat, path: string, tbl: Option<Ref>): (Outcome, string)
    requires TablesOk(w) && (tbl.Some? ==> RefOk(w, tbl.value))
    decreases |path|
  {
    var h := Head(path);
    var m := First(w, h, tbl);
    if m.None? then (NoCommand, path)
    else
      var e := At(w, m.value);
      if e.next.None? && e.exec.None? && !IsArray(w, m) then (BadTable, path)
      else if e.exec.Some? && (e.next.None? || (|h| == |path| && argc > 1)) then (Runs(e.exec.value, path), path)
      else if e.next.None? then (NoCommand, path)
      else if |h| == |path| then (if argc == 1 then ShowsHelp else NoCommand, path)
      else ParseS(w, argc, path[|h| + 1..], Below(w, m.value))
  }

  /** cli_parser: the mandatory table first, then the current directory. */
  function CommandS(w: Tables, s: Dir, argc: nat, path: string): Outcome
    requires TablesOk(w) && DirOk(w, s)
  {
    CurOk(w, s);
    var (o, rest) := ParseS(w, argc, path, Some(w.root[0]));
    if o != NoCommand then o else ParseS(w, argc, rest, s.cur).0
  }

  /** The entry reached by looking the names up one below the other, first match each time. */
  function Walk(w: Tables, names: seq<string>, tbl: Option<Ref>): (m: Option<Ref>)
    requires TablesOk(w) && (tbl.Some? ==> RefOk(w, tbl.value)) && names != []
    ensures m.Some? ==> RefOk(w, m.value)
    decreases |names|
  {
    var m := First(w, names[0], tbl);
    if |names| == 1 then m
    else if m.Some? && At(w, m.value).next.Some? then Walk(w, names[1..], Below(w, m.value))
    else None
  }

  /** The first k names lead to an entry whose function f runs: a command without a table
      below it, or the last name of a line with arguments. */
  ghost predicate StopsAt(w: Tables, argc: nat, names: seq<string>, tbl: Option<Ref>, k: nat, f: nat)
    requires TablesOk(w) && (tbl.Some? ==> RefOk(w, tbl.value))
  {
    && 1 <= k <= |names|
    && var m := Walk(w, names[..k], tbl);
       m.Some? && At(w, m.value).exec == Some(f) && (At(w, m.value).next.None? || (k == |names| && argc > 1))
  }

  ghost predicate Names(names: seq<string>) {
    names != [] && forall i :: 0 <= i < |names| ==> '.' !in names[i]
  }

  lemma {:induction false} BehindDot(name: string, rest: string)
    ensures var p := name + ("." + rest); |p| > |name| && p[|name| + 1..] == rest
  {}

  lemma {:induction false} JoinParts(names: seq<string>)
    requires Names(names)
    ensures Head(Join(names)) == names[0] && (|names[0]| == |Join(names)| <==> |names| == 1)
    ensures |names| > 1 ==> Join(names)[|names[0]| + 1..] == Join(names[1..])
  {
    if |names| == 1 {
      HeadOfName(names[0], "");
      assert names[0] + "" == names[0];
    } else {
      var rest := "." + Join(names[1..]);
      HeadOfName(names[0], rest);
      Regroup(names[0], ".", Join(names[1..]));
      BehindDot(names[0], Join(names[1..]));
    }
  }

  /** Whether the first name, or more names, lead to a stop. */
  lemma {:induction false} StopsStep(w: Tables, argc: nat, names: seq<string>, tbl: Option<Ref>, k: nat, f: nat)
    requires TablesOk(w) && (tbl.Some? ==> RefOk(w, tbl.value)) && names != [] && 1 <= k <= |names|
    ensures var m := First(w, names[0], tbl);
      StopsAt(w, argc, names, tbl, k, f) <==>
        if k == 1
        then m.Some? && At(w, m.value).exec == Some(f) && (At(w, m.value).next.None? || (1 == |names| && argc > 1))
        else m.Some? && At(w, m.value).next.Some? && StopsAt(w, argc, names[1..], Below(w, m.value), k - 1, f)
  {
    assert names[..k][0] == names[0];
    if k == 1 { assert names[..1] == [names[0]]; } else { assert names[..k][1..] == names[1..][..k - 1]; }
    hide First;
  }

  /** A dotted command that runs function f: some of its names, from the first on, lead by
      first-match lookup to an entry with function f at which the command stops, and the
      function is given what is left of the path from that name on. */
  lemma {:induction false} CommandStops(w: Tables, argc: nat, names: seq<string>, tbl: Option<Ref>, f: nat,
                                        arg0: string)
    returns (k: nat)
    requires TablesOk(w) && (tbl.Some? ==> RefOk(w, tbl.value)) && Names(names)
    requires ParseS(w, argc, Join(names), tbl).0 == Runs(f, arg0)
    ensures 1 <= k <= |names| && StopsAt(w, argc, names, tbl, k, f) && arg0 == Join(names[k - 1..])
    decreases |names|
  {
    hide First, Join, StopsAt, Head;
    JoinParts(names);
    var m := First(w, names[0], tbl);
    var e := At(w, m.value);
    if e.exec.Some? && (e.next.None? || (|names| == 1 && argc > 1)) {
      k := 1;
      assert names[0..] == names;
    } else {
      var j := CommandStops(w, argc, names[1..], Below(w, m.value), f, arg0);
      k := j + 1;
      assert names[1..][j - 1..] == names[k - 1..];
    }
    StopsStep(w, argc, names, tbl, k, f);
  }

  /** And conversely: if names lead to a stop, the command runs the function found there. */
  lemma {:induction false} StopsCommand(w: Tables, argc: nat, names: seq<string>, tbl: Option<Ref>, f: nat, k: nat)
    requires TablesOk(w) && (tbl.Some? ==> RefOk(w, tbl.value)) && Names(names)
    requires 1 <= k <= |names| && StopsAt(w, argc, names, tbl, k, f)
    ensures ParseS(w, argc, Join(names), tbl).0 == Runs(f, Join(names[k - 1..]))
    decreases |names|
  {
    hide First, Join, StopsAt, Head;
    JoinParts(names);
    StopsStep(w, argc, names, tbl, k, f);
    var m := First(w, names[0], tbl);
    if k == 1 {
      assert names[0..] == names;
    } else {
      StopsCommand(w, argc, names[1..], Below(w, m.value), f, k - 1);
      assert names[1..][k - 2..] == names[k - 1..];
    }
  }

  // ---------- the other outcomes ----------

  /** All names, and no arguments, lead to an entry with a table below it. */
  ghost predicate HelpAt(w: Tables, argc: nat, names: seq<string>, tbl: Option<Ref>)
    requires TablesOk(w) && (tbl.Some? ==> RefOk(w, tbl.value)) && names != []
  {
    argc == 1 && var m := Walk(w, names, tbl); m.Some? && At(w, m.value).next.Some?
  }

  /** The first k names lead to an entry with neither function nor table, and no category. */
  ghost predicate BadAt(w: Tables, names: seq<string>, tbl: Option<Ref>, k: nat)
    requires TablesOk(w) && (tbl.Some? ==> RefOk(w, tbl.value))
  {
    1 <= k <= |names| && var m := Walk(w, names[..k], tbl); m.Some? && IsBad(w, m.value)
  }

  predicate IsBad(w: Tables, m: Ref)
    requires RefOk(w, m)
  {
    At(w, m).next.None? && At(w, m).exec.None? && !IsArray(w, Some(m))
  }

  lemma {:induction false} BadStep(w: Tables, names: seq<string>, tbl: Option<Ref>, k: nat)
    requires TablesOk(w) && (tbl.Some? ==> RefOk(w, tbl.value)) && 1 <= k <= |names|
    ensures var m := First(w, names[0], tbl);
      BadAt(w, names, tbl, k) <==>
        m.Some? && if k == 1 then IsBad(w, m.value)
                   else At(w, m.value).next.Some? && BadAt(w, names[1..], Below(w, m.value), k - 1)
  {
    assert names[..k][0] == names[0];
    if k == 1 { assert names[..1] == [names[0]]; } else { assert names[..k][1..] == names[1..][..k - 1]; }
    hide First;
  }

  lemma {:induction false} BadTables(w: Tables, argc: nat, names: seq<string>, tbl: Option<Ref>, k: nat)
    requires TablesOk(w) && (tbl.Some? ==> RefOk(w, tbl.value)) && Names(names) && 1 <= k <= |names|
    requires BadAt(w, names, tbl, k)
    ensures ParseS(w, argc, Join(names), tbl).0 == BadTable
    decreases |names|
  {
    hide First, Join, BadAt, Head;
    JoinParts(names);
    BadStep(w, names, tbl, k);
    if k > 1 { BadTables(w, argc, names[1..], Below(w, First(w, names[0], tbl).value), k - 1); }
  }

  lemma {:induction false} FindBad(w: Tables, argc: nat, names: seq<string>, tbl: Option<Ref>) returns (k: nat)
    requires TablesOk(w) && (tbl.Some? ==> RefOk(w, tbl.value)) && Names(names)
    requires ParseS(w, argc, Join(names), tbl).0 == BadTable
    ensures BadAt(w, names, tbl, k)
    decreases |names|
  {
    hide First, Join, BadAt, Head;
    JoinParts(names);
    var m := First(w, names[0], tbl).value;
    k := 1;
    if !IsBad(w, m) {
      var j := FindBad(w, argc, names[1..], Below(w, m));
      assert 1 <= j <= |names| - 1 by { BadRange(w, names[1..], Below(w, m), j); }
      k := j + 1;
    }
    BadStep(w, names, tbl, k);
  }

  lemma {:induction false} BadRange(w: Tables, names: seq<string>, tbl: Option<Ref>, k: nat)
    requires TablesOk(w) && (tbl.Some? ==> RefOk(w, tbl.value)) && BadAt(w, names, tbl, k)
    ensures 1 <= k <= |names|
  {}

  lemma {:induction false} HelpShown(w: Tables, argc: nat, names: seq<string>, tbl: Option<Ref>)
    requires TablesOk(w) && (tbl.Some? ==> RefOk(w, tbl.value)) && Names(names)
    ensures ParseS(w, argc, Join(names), tbl).0 == ShowsHelp <==> HelpAt(w, argc, names, tbl)
    decreases |names|
  {
    hide First, Join, Head;
    JoinParts(names);
    var m := First(w, names[0], tbl);
    if |names| > 1 && m.Some? && At(w, m.value).next.Some? { HelpShown(w, argc, names[1..], Below(w, m.value)); }
  }

  /** What a dotted command comes to, exactly: a function runs if names lead to a stop, help is
      shown if all of them lead to a table and there are no arguments, the tables are bad if
      names lead to an entry with nothing behind it; in every other case, and only then, there
      is no such command. */
  lemma {:induction false} OutcomeExactly(w: Tables, argc: nat, names: seq<string>, tbl: Option<Ref>)
    requires TablesOk(w) && (tbl.Some? ==> RefOk(w, tbl.value)) && Names(names)
    ensures var o := ParseS(w, argc, Join(names), tbl).0;
      && (o.Runs? <==> exists k, f :: StopsAt(w, argc, names, tbl, k, f))
      && (o.ShowsHelp? <==> HelpAt(w, argc, names, tbl))
      && (o.BadTable? <==> exists k :: BadAt(w, names, tbl, k))
      && (o.NoCommand? <==> !HelpAt(w, argc, names, tbl) && (forall k, f :: !StopsAt(w, argc, names, tbl, k, f))
                            && forall k :: !BadAt(w, names, tbl, k))
  {
    hide Join, StopsAt, BadAt, HelpAt;
    var o := ParseS(w, argc, Join(names), tbl).0;
    HelpShown(w, argc, names, tbl);
    if o.Runs? { var k := CommandStops(w, argc, names, tbl, o.exec, o.arg0); }
    if o.BadTable? { var k := FindBad(w, argc, names, tbl); }
    forall k, f | StopsAt(w, argc, names, tbl, k, f) ensures o.Runs? {
      StopsRange(w, argc, names, tbl, k, f);
      StopsCommand(w, argc, names, tbl, f, k);
    }
    forall k | BadAt(w, names, tbl, k) ensures o.BadTable? {
      BadRange(w, names, tbl, k);
      BadTables(w, argc, names, tbl, k);
    }
  }

  lemma {:induction false} StopsRange(w: Tables, argc: nat, names: seq<string>, tbl: Option<Ref>, k: nat, f: nat)
    requires TablesOk(w) && (tbl.Some? ==> RefOk(w, tbl.value)) && StopsAt(w, argc, names, tbl, k, f)
    ensures 1 <= k <= |names|
  {}

  /** The mandatory table as it is shipped has no directories: then a command it does not
      know is looked up in the current directory unchanged. */
  lemma {:induction false} MandatoryFirst(w: Tables, s: Dir, argc: nat, path: string)
    requires TablesOk(w) && DirOk(w, s) && !IsArray(w, Some(w.root[0]))
    requires forall e :: e in w.entries[w.root[0].table] ==> e.next.None?
    ensures var o := ParseS(w, argc, path, Some(w.root[0])).0;
      CommandS(w, s, argc, path) == if o != NoCommand then o else (CurOk(w, s); ParseS(w, argc, path, s.cur).0)
  {
    var m := Search(w, Head(path), w.root[0]);
    if m.Some? { assert At(w, m.value) in w.entries[w.root[0].table]; }
  }
}
