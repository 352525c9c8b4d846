/** Attaching command tables to the console and detaching them (cli/cli_parser.c): two
    parallel arrays per category, shifted in place. */
module CliTables {
  import opened Seqs

  const MAX_TABLES: nat := 128

  /** A command table: its address and the two strings of its first entry. */
  datatype Table = Table(id: nat, name: string, abbr: Option<string>)

  /** CLI_GRP_T */
  datatype Group = Group(table: Option<Table>, mask: nat)

  datatype Item = Item(table: Table, mask: nat)

  /** NullRead: the source compares a NULL string, and does not return. */
  datatype Code = OK | TableFull | TableNull | NotFound | NullRead

  /** strcmp(a, b) == -1, for a strcmp that answers -1, 0 or 1. */
  predicate Less(a: string, b: string) {
    if b == [] then false
    else if a == [] then true
    else if a[0] != b[0] then a[0] < b[0]
    else Less(a[1..], b[1..])
  }

  lemma {:induction false} LessTotal(a: string, b: string)
    ensures !(Less(a, b) && Less(b, a)) && (Less(a, b) || Less(b, a) || a == b) && !Less(a, a)
  {
    if a != [] && b != [] && a[0] == b[0] {
      LessTotal(a[1..], b[1..]);
      assert a == [a[0]] + a[1..] && b == [b[0]] + b[1..];
    }
    if a != [] { LessTotal(a[1..], a[1..]); }
  }

  lemma {:induction false} LessTrans(a: string, b: string, c: string)
    requires !Less(b, a) && !Less(c, b)
    ensures !Less(c, a)
  {
    if a != [] && b != [] && c != [] && a[0] == b[0] && b[0] == c[0] { LessTrans(a[1..], b[1..], c[1..]); }
  }

  /** a and b agree up to position n, where a ends or has the smaller character. */
  predicate SmallerAt(a: string, b: string, n: nat) {
    n < |b| && n <= |a| && (forall i :: 0 <= i < n ==> a[i] == b[i]) && (n == |a| || a[n] < b[n])
  }

  /** The order of the tables is the lexical one. */
  lemma {:induction false} LessIsLexical(a: string, b: string)
    ensures Less(a, b) <==> exists n: nat :: SmallerAt(a, b, n)
  {
    if a != [] && b != [] && a[0] == b[0] {
      LessIsLexical(a[1..], b[1..]);
      if Less(a, b) {
        var n: nat :| SmallerAt(a[1..], b[1..], n);
        forall i | 0 <= i < n + 1 ensures a[i] == b[i] { if i > 0 { assert a[1..][i - 1] == b[1..][i - 1]; } }
        assert SmallerAt(a, b, n + 1);
      } else if n: nat :| SmallerAt(a, b, n) {
        assert SmallerAt(a[1..], b[1..], n - 1);
      }
    } else if Less(a, b) {
      assert SmallerAt(a, b, 0);
    }
  }

  // ---------- the operations on values ----------

  /** The first item under the name, or the number of items. */
  function Named(q: seq<Item>, name: string): (k: nat)
    ensures k <= |q| && (k < |q| ==> q[k].table.name == name)
    ensures forall j :: 0 <= j < k ==> q[j].table.name != name
  {
    if q == [] || q[0].table.name == name then 0 else 1 + Named(q[1..], name)
  }

  /** A table of that name is there, and has no abbreviation or the same one. */
  predicate Replaces(q: seq<Item>, t: Table) {
    var k := Named(q, t.name);
    k < |q| && (q[k].table.abbr.None? || q[k].table.abbr == t.abbr)
  }

  /** The source compares abbreviations, and the new table has none. */
  predicate ComparesNull(q: seq<Item>, t: Table) {
    var k := Named(q, t.name);
    k < |q| && q[k].table.abbr.Some? && t.abbr.None?
  }

  /** The first item whose name is greater, or the number of items. */
  function Place(q: seq<Item>, name: string): (k: nat)
    ensures k <= |q| && (k < |q| ==> Less(name, q[k].table.name))
    ensures forall j :: 0 <= j < k ==> !Less(name, q[j].table.name)
  {
    if q == [] || Less(name, q[0].table.name) then 0 else 1 + Place(q[1..], name)
  }

  function InsertAt(q: seq<Item>, k: nat, x: Item): seq<Item>
    requires k <= |q|
  {
    q[..k] + [x] + q[k..]
  }

  /** cli_parser_attach_cmd_tbl; sorts says whether the category keeps its tables in order. */
  function AttachS(q: seq<Item>, sorts: bool, x: Item): (Code, seq<Item>) {
    if |q| >= MAX_TABLES then (TableFull, q)
    else if ComparesNull(q, x.table) then (NullRead, q)
    else if Replaces(q, x.table) then (OK, q[Named(q, x.table.name) := x])
    else (OK, InsertAt(q, if sorts then Place(q, x.table.name) else |q|, x))
  }

  /** The first item that is x, or the number of items. */
  function Find(q: seq<Item>, x: Item): (k: nat)
    ensures k <= |q| && (k < |q| ==> q[k] == x)
    ensures forall j :: 0 <= j < k ==> q[j] != x
  {
    if q == [] || q[0] == x then 0 else 1 + Find(q[1..], x)
  }

  /** cli_parser_detach_cmd_tbl */
  function DetachS(q: seq<Item>, x: Item): (Code, seq<Item>) {
    var k := Find(q, x);
    if q == [] then (TableNull, q)
    else if k == |q| then (NotFound, q)
    else (OK, q[..k] + q[k + 1..])
  }

  /** The table is added to the others. */
  predicate Inserts(q: seq<Item>, t: Table) {
    |q| < MAX_TABLES && !Replaces(q, t) && !ComparesNull(q, t)
  }

  /** The root entry's link to the first table: set by attaching when the new table goes to the
      front of a sorting category, and by nothing else. */
  function LinkAfter(q: seq<Item>, link: Option<Table>, sorts: bool, x: Item): Option<Table> {
    if Inserts(q, x.table) && sorts && Place(q, x.table.name) == 0 then Some(x.table) else link
  }

  // ---------- what they guarantee ----------

  ghost predicate InOrder(q: seq<Item>) {
    forall i, j :: 0 <= i < j < |q| ==> !Less(q[j].table.name, q[i].table.name)
  }

  /** Attaching keeps a sorting category sorted by command string. */
  lemma {:induction false} AttachKeepsOrder(q: seq<Item>, x: Item)
    requires InOrder(q)
    ensures InOrder(AttachS(q, true, x).1)
  {
    var r := AttachS(q, true, x).1;
    var p := Place(q, x.table.name);
    if Inserts(q, x.table) {
      forall i, j | 0 <= i < j < |r| ensures !Less(r[j].table.name, r[i].table.name) {
        if i == p {
          LessTotal(x.table.name, q[p].table.name);
          if p < j - 1 { LessTrans(x.table.name, q[p].table.name, q[j - 1].table.name); }
        }
      }
    }
  }

  lemma {:induction false} DetachKeepsOrder(q: seq<Item>, x: Item)
    requires InOrder(q)
    ensures InOrder(DetachS(q, x).1)
  {}

  /** Attaching reads through NULL exactly if there is room, the first table of that name has an
      abbreviation, and the new one has none. */
  lemma {:induction false} AttachReadsNull(q: seq<Item>, sorts: bool, x: Item)
    ensures AttachS(q, sorts, x).0 == NullRead
       <==> |q| < MAX_TABLES && x.table.abbr.None?
            && exists k :: FirstNamed(q, x.table.name, k) && q[k].table.abbr.Some?
  {
    var k := Named(q, x.table.name);
    if k < |q| { assert FirstNamed(q, x.table.name, k); }
    forall j | FirstNamed(q, x.table.name, j) ensures j == k {}
  }

  predicate FirstNamed(q: seq<Item>, name: string, k: int) {
    0 <= k < |q| && q[k].table.name == name && forall j :: 0 <= j < k ==> q[j].table.name != name
  }

  /** Item k is the first of the name, and has no abbreviation or that of x. */
  predicate GivesWay(q: seq<Item>, x: Item, k: int) {
    FirstNamed(q, x.table.name, k) && (q[k].table.abbr.None? || q[k].table.abbr == x.table.abbr)
  }

  /** Where a table that replaces none belongs: at the end, or in a sorting category behind all
      that are not greater and before the first that is. */
  predicate Belongs(q: seq<Item>, sorts: bool, name: string, p: int) {
    && 0 <= p <= |q| && (!sorts ==> p == |q|)
    && (sorts ==> (p < |q| ==> Less(name, q[p].table.name)) && forall j :: 0 <= j < p ==> !Less(name, q[j].table.name))
  }

  /** What attaching leaves, at position p: in a full category, and where a NULL is read, all as
      it was; the new table with its own mask in place of the one that gives way; or all the
      tables in their order with the new one where it belongs. */
  lemma {:induction false} AttachOutcome(q: seq<Item>, sorts: bool, x: Item) returns (p: nat)
    ensures var (c, r) := AttachS(q, sorts, x);
      && (c == TableFull <==> |q| >= 128) && c in {OK, TableFull, NullRead} && (c != OK ==> r == q)
      && (c == OK ==> p < |r| && r[p] == x)
      && (c == OK && GivesWay(q, x, p) ==>
            |r| == |q| && forall j :: 0 <= j < |q| && j != p ==> r[j] == q[j])
      && (c == OK && (forall k :: !GivesWay(q, x, k)) ==>
            |r| == |q| + 1 && Belongs(q, sorts, x.table.name, p) && r[..p] == q[..p] && r[p + 1..] == q[p..])
      && (c == OK && (exists k :: GivesWay(q, x, k)) ==> GivesWay(q, x, p))
  {
    var k := Named(q, x.table.name);
    hide Named, Place, Less;
    p := if Replaces(q, x.table) then k else if sorts then Place(q, x.table.name) else |q|;
    forall j | GivesWay(q, x, j) ensures j == k {}
    if Replaces(q, x.table) { assert GivesWay(q, x, k); }
  }

  /** Detaching takes out the first table that is x with its mask, if there is one, and answers
      so; otherwise all is as it was. */
  lemma {:induction false} DetachOutcome(q: seq<Item>, x: Item) returns (k: nat)
    ensures var (c, r) := DetachS(q, x);
      && c == (if q == [] then TableNull else if x in q then OK else NotFound)
      && (c == OK ==> k < |q| && q[k] == x && x !in q[..k] && r == q[..k] + q[k + 1..])
      && (c != OK ==> r == q)
  {
    k := Find(q, x);
    hide Find;
    if x in q { var j := Position(q, x); }
  }

  /** Detaching a table just attached restores the tables exactly if it was added to them, that
      is, if it did not replace one and the source did not fail: always if none of its name was
      there. The root entry's link is restored too exactly if the table did not go to the front
      of a sorting category, or the link had been on it before: otherwise it stays on the
      detached table. */
  lemma {:induction false} DetachUndoesAttach(q: seq<Item>, link: Option<Table>, sorts: bool, x: Item)
    requires |q| < MAX_TABLES && x !in q
    ensures var (c, r) := AttachS(q, sorts, x);
      && (DetachS(r, x) == (OK, q) <==> Inserts(q, x.table))
      && (DetachS(r, x) == (OK, q) && LinkAfter(q, link, sorts, x) == link
          <==> Inserts(q, x.table) && (!sorts || Place(q, x.table.name) != 0 || link == Some(x.table)))
    ensures Named(q, x.table.name) == |q| ==> Inserts(q, x.table)
  {
    hide Find, Named, Place, InsertAt;
    var r := AttachS(q, sorts, x).1;
    if Replaces(q, x.table) {
      assert r[Named(q, x.table.name)] == x;
      ShorterAfter(r, x);
    } else if ComparesNull(q, x.table) {
      assert r == q;
    } else {
      InsertedLast(q, if sorts then Place(q, x.table.name) else |q|, x);
    }
  }

  /** In a sorting category that holds tables the root entry's link is on the first. */
  predicate RootOk(q: seq<Item>, link: Option<Table>, sorts: bool) {
    sorts && q != [] ==> link == Some(q[0].table)
  }

  /** Attaching keeps that exactly unless it replaces the first table by another. */
  lemma {:induction false} AttachKeepsRoot(q: seq<Item>, link: Option<Table>, sorts: bool, x: Item)
    requires RootOk(q, link, sorts) && |q| < MAX_TABLES
    ensures RootOk(AttachS(q, sorts, x).1, LinkAfter(q, link, sorts, x), sorts)
       <==> !(sorts && Replaces(q, x.table) && Named(q, x.table.name) == 0 && q[0].table != x.table)
  {
    hide Less;
    if Replaces(q, x.table) { assert AttachS(q, sorts, x).1 == q[Named(q, x.table.name) := x]; }
  }

  /** Detaching keeps it exactly unless it takes the first table away from in front of another. */
  lemma {:induction false} DetachKeepsRoot(q: seq<Item>, link: Option<Table>, sorts: bool, x: Item)
    requires RootOk(q, link, sorts)
    ensures RootOk(DetachS(q, x).1, link, sorts) <==> !(sorts && |q| > 1 && q[0] == x && q[1].table != x.table)
  {
    if q != [] && Find(q, x) < |q| {
      var k := Find(q, x);
      assert DetachS(q, x).1 == q[..k] + q[k + 1..];
    }
  }

  lemma {:induction false} ShorterAfter(r: seq<Item>, x: Item)
    requires x in r
    ensures |DetachS(r, x).1| == |r| - 1
  {
    hide Find;
    if Find(r, x) == |r| { var j := Position(r, x); }
  }

  lemma {:induction false} InsertedLast(q: seq<Item>, p: nat, x: Item)
    requires p <= |q| && x !in q
    ensures DetachS(InsertAt(q, p, x), x) == (OK, q)
  {
    var r := InsertAt(q, p, x);
    hide Find;
    assert r[p] == x;
    var k := Find(r, x);
    assert forall j :: 0 <= j < p ==> r[j] == q[j];
    assert k == p;
    assert r[..p] + r[p + 1..] == q;
  }

  // ---------- the arrays ----------

  function TableSlot(q: seq<Item>, i: nat): Option<Table> {
    if i < |q| then Some(q[i].table) else None
  }

  function GroupSlot(q: seq<Item>, i: nat): Group {
    if i < |q| then Group(Some(q[i].table), q[i].mask) else Group(None, 0)
  }

  /** One category: apt_cli_array, at_cli_mod_grp_info and aui4_cli_tbl_cnt, and the link of
      the category's root entry to its first table. */
  class Category {
    const sorts: bool
    const tables: array<Option<Table>>
    const groups: array<Group>
    var count: nat
    var nextLevel: Option<Table>
    ghost var items: seq<Item>

    ghost predicate Valid()
      reads this, tables, groups
    {
      && tables.Length == groups.Length == MAX_TABLES && count == |items| <= MAX_TABLES
      && Holds(items, items, 0)
    }

    /** Both arrays, in step, hold r in their first i slots and q in the others; every slot
        past the end is empty. */
    ghost predicate Holds(r: seq<Item>, q: seq<Item>, i: nat)
      requires tables.Length == groups.Length
      reads tables, groups
    {
      forall j :: 0 <= j < tables.Length ==> HoldsAt(r, q, i, j)
    }

    ghost predicate HoldsAt(r: seq<Item>, q: seq<Item>, i: nat, j: nat)
      requires j < tables.Length && j < groups.Length
      reads tables, groups
    {
      && tables[j] == TableSlot(if j < i then r else q, j)
      && groups[j] == GroupSlot(if j < i then r else q, j)
    }

    constructor (s: bool)
      ensures Valid() && items == [] && sorts == s && fresh(tables) && fresh(groups)
    {
      sorts := s;
      tables := new Option<Table>[MAX_TABLES](_ => None);
      groups := new Group[MAX_TABLES](_ => Group(None, 0));
      count, nextLevel, items := 0, None, [];
      new;
      forall j | 0 <= j < tables.Length ensures HoldsAt([], [], 0, j) {}
    }

    /** Put a table into one slot of both arrays. */
    method Store(i: nat, t: Option<Table>, mask: nat)
      requires i < tables.Length && i < groups.Length && tables.Length == groups.Length
      modifies tables, groups
      ensures tables[i] == t && groups[i] == Group(t, mask)
      ensures forall j :: 0 <= j < tables.Length && j != i ==>
        tables[j] == old(tables[j]) && groups[j] == old(groups[j])
    {
      tables[i] := t;
      groups[i] := Group(t, mask);
    }

    /** The search for a table to replace. */
    method Search(t: Table) returns (i: nat, replace: bool, fault: bool)
      requires Valid()
      ensures replace == Replaces(items, t) && fault == ComparesNull(items, t) && i == Named(items, t.name)
    {
      i, replace, fault := 0, false, false;
      while i < count
        invariant i <= count && !replace && !fault && forall j :: 0 <= j < i ==> items[j].table.name != t.name
      {
        assert HoldsAt(items, items, 0, i);
        if t.name == tables[i].value.name {
          if tables[i].value.abbr.None? {
            replace := true;
          } else if t.abbr.None? {
            fault := true;
          } else if t.abbr == tables[i].value.abbr {
            replace := true;
          }
          break;
        }
        i := i + 1;
      }
    }

    /** The sorting loop: the new table goes in front of the first with a greater name, and
        what it displaces is carried on to the next slot. */
    method InsertSorted(x: Item)
      requires Valid() && 0 < count < MAX_TABLES && sorts
      modifies this, tables, groups
      ensures Valid() && items == InsertAt(old(items), Place(old(items), x.table.name), x)
      ensures nextLevel == if Place(old(items), x.table.name) == 0 then Some(x.table) else old(nextLevel)
    {
      hide Place;
      ghost var q, p := items, Place(items, x.table.name);
      ghost var r := InsertAt(q, p, x);
      count := count + 1;
      forall j | 0 <= j < tables.Length ensures HoldsAt(r, q, 0, j) { assert HoldsAt(q, q, 0, j); }
      var i, swap := 0, false;
      var carried, mask := None, 0;
      while i < count
        invariant i <= count == |q| + 1 && (swap <==> p < i && p < |q|) && (!swap && i > p ==> i == count)
        invariant Holds(r, q, i)
        invariant swap && i < count ==> carried == Some(q[i - 1].table) && mask == q[i - 1].mask
        invariant nextLevel == if p == 0 && i > 0 then Some(x.table) else old(nextLevel)
      {
        assert HoldsAt(r, q, i, i);
        assert r[i] == if i < p then q[i] else if i == p then x else q[i - 1];
        label turn:
        if !swap && i < count - 1 {
          if Less(x.table.name, tables[i].value.name) {
            swap := true;
            carried, mask := tables[i], groups[i].mask;
            Store(i, Some(x.table), x.mask);
            if i == 0 {
              nextLevel := Some(x.table);
            }
          }
        } else if swap {
          var t, m := tables[i], groups[i].mask;
          Store(i, carried, mask);
          carried, mask := t, m;
        } else {
          Store(i, Some(x.table), x.mask);
        }
        i := i + 1;
        forall j | 0 <= j < tables.Length ensures HoldsAt(r, q, i, j) {
          assert old@turn(HoldsAt(r, q, i - 1, j));
        }
      }
      items := r;
      forall j | 0 <= j < tables.Length ensures HoldsAt(r, r, 0, j) { assert HoldsAt(r, q, i, j); }
    }

    /** cli_parser_attach_cmd_tbl */
    method Attach(x: Item) returns (r: Code)
      requires Valid()
      modifies this, tables, groups
      ensures Valid() && (r, items) == AttachS(old(items), sorts, x)
      ensures nextLevel == LinkAfter(old(items), old(nextLevel), sorts, x)
    {
      hide Place, Named, Less;
      if count >= MAX_TABLES {
        return TableFull;
      }
      var i, replace, fault := Search(x.table);
      if fault {
        return NullRead;
      }
      if replace {
        Store(i, Some(x.table), x.mask);
        ghost var q := items;
        items := items[i := x];
        forall j | 0 <= j < tables.Length ensures HoldsAt(items, items, 0, j) {
          assert old(HoldsAt(items, items, 0, j));
        }
      } else if count > 0 && sorts {
        InsertSorted(x);
      } else {
        PlaceInEmpty(items, x.table.name);
        count := count + 1;
        Store(count - 1, Some(x.table), x.mask);
        if count - 1 == 0 && sorts {
          nextLevel := Some(x.table);
        }
        items := items + [x];
        assert InsertAt(old(items), |old(items)|, x) == items;
        forall j | 0 <= j < tables.Length ensures HoldsAt(items, items, 0, j) {
          assert old(HoldsAt(items, items, 0, j));
        }
      }
      return OK;
    }

    /** The search for the table to detach: same strings, same table, same groups. */
    method SearchItem(x: Item) returns (i: nat, found: bool)
      requires Valid()
      ensures i == Find(items, x) && found == (i < |items|)
    {
      i, found := 0, false;
      while i < count
        invariant i <= count && !found && forall j :: 0 <= j < i ==> items[j] != x
      {
        assert HoldsAt(items, items, 0, i);
        var sameName := x.table.name == tables[i].value.name;
        var sameAbbr := x.table.abbr == tables[i].value.abbr;
        if sameName && sameAbbr {
          if groups[i].table == Some(x.table) && groups[i].mask == x.mask {
            found := true;
            break;
          }
        }
        i := i + 1;
      }
    }

    /** cli_parser_detach_cmd_tbl: shift down over the detached table. */
    method Detach(x: Item) returns (r: Code)
      requires Valid()
      modifies this, tables, groups
      ensures Valid() && (r, items) == DetachS(old(items), x) && nextLevel == old(nextLevel)
    {
      hide Find;
      if count == 0 {
        return TableNull;
      }
      var k, found := SearchItem(x);
      if !found {
        return NotFound;
      }
      ghost var q, p := items, items[..k] + items[k + 1..];
      forall j | 0 <= j < tables.Length ensures HoldsAt(p, q, k, j) { assert HoldsAt(q, q, 0, j); }
      var i := k;
      while i < count
        invariant k <= i <= count == |q| && items == q && nextLevel == old(nextLevel)
        invariant forall j :: 0 <= j < tables.Length ==> HoldsAt(p, q, i, j)
      {
        label turn:
        assert HoldsAt(p, q, i, i);
        if i < MAX_TABLES - 1 {
          assert HoldsAt(p, q, i, i + 1);
          Store(i, tables[i + 1], groups[i + 1].mask);
        } else if i == MAX_TABLES - 1 {
          Store(i, None, 0);
        }
        i := i + 1;
        forall j | 0 <= j < tables.Length ensures HoldsAt(p, q, i, j) { assert old@turn(HoldsAt(p, q, i - 1, j)); }
      }
      count := count - 1;
      items := p;
      forall j | 0 <= j < tables.Length ensures HoldsAt(p, p, 0, j) { assert HoldsAt(p, q, i, j); }
      return OK;
    }
  }

  lemma {:induction false} PlaceInEmpty(q: seq<Item>, name: string)
    ensures q == [] ==> Place(q, name) == 0
  {}
}
