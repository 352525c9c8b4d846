/** Splitting a command line into arguments (_find_cmd_argv, cli/cli_parser.c). */
module CliTokens {
  import opened Seqs

  const NUL: char := '\0'

  /** IS_PRINTABLE: everything but the control characters; NUL counts as printable. */
  predicate IsPrintable(c: char) {
    !('\0' < c < ' ')
  }

  /** IS_SPACE. '\U{0007}' is the alert character. */
  predicate IsSpace(c: char) {
    c == ' ' || c == '\n' || c == '\t' || c == '\r' || c == '\U{0007}'
  }

  predicate IsQuote(c: char) {
    c == '\'' || c == '\"'
  }

  /** The quote state: none open, a single or a double quote open. */
  datatype Quote = NoQuote | Single | Double

  /** The character the source reads at the start of s, which NUL ends. */
  function Head(s: string): char {
    if s == [] then NUL else s[0]
  }

  function Skip(s: string): (r: string)
    ensures |r| <= |s|
  {
    if s != [] && (!IsPrintable(s[0]) || IsSpace(s[0])) then Skip(s[1..]) else s
  }

  predicate Inside(c: char, q: Quote) {
    IsPrintable(c) && match q
      case NoQuote => !IsSpace(c)
      case Single => c != '\''
      case Double => c != '\"'
  }

  /** Opening or closing a quote. */
  predicate Toggles(c: char, q: Quote) {
    (q != Double && c == '\'') || (q != Single && c == '\"')
  }

  function Toggle(c: char, q: Quote): Quote {
    if q != NoQuote then NoQuote else if c == '\'' then Single else Double
  }

  /** The argument grabbed from s after i characters, what follows it, and how many characters
      it took in all. */
  function Grab(s: string, q: Quote, i: nat, len: nat): (string, string, nat) {
    if s == [] || !Inside(s[0], q) || i + 1 >= len then ([], s, i)
    else if Toggles(s[0], q) then Grab(s[1..], Toggle(s[0], q), i + 1, len)
    else
      var (w, rest, n) := Grab(s[1..], q, i + 1, len);
      ([s[0]] + w, rest, n)
  }

  /** One argument: skip to it, grab it, step over a quote behind it. */
  function One(s: string, len: nat): (string, string, nat) {
    var (w, rest, n) := Grab(Skip(s), NoQuote, 0, len);
    if IsQuote(Head(rest)) then (w, rest[1..], n + 1) else (w, rest, n)
  }

  lemma {:induction false} GrabShape(s: string, q: Quote, i: nat, len: nat)
    ensures var (w, rest, n) := Grab(s, q, i, len);
      |w| + |rest| <= |s| && n - i + |rest| == |s| && (i + 1 <= len ==> |w| + i <= n && n + 1 <= len)
    decreases |s|
  {
    if s != [] && Inside(s[0], q) && i + 1 < len {
      GrabShape(s[1..], if Toggles(s[0], q) then Toggle(s[0], q) else q, i + 1, len);
    }
  }

  lemma {:induction false} SkipStops(s: string)
    ensures Skip(s) != [] ==> Inside(Skip(s)[0], NoQuote)
  {
    if s != [] && (!IsPrintable(s[0]) || IsSpace(s[0])) { SkipStops(s[1..]); }
  }

  /** With room for at least one character and its terminator, each turn consumes input. */
  lemma {:induction false} OneConsumes(s: string, len: nat)
    requires len >= 2
    ensures var (w, rest, n) := One(s, len);
      && |w| < len && (s != [] ==> |rest| < |s|) && |rest| <= |s| && (n == 0 ==> rest == [] && w == [])
  {
    SkipStops(s);
    GrabShape(Skip(s), NoQuote, 0, len);
    if Skip(s) != [] {
      var t := Skip(s);
      GrabShape(t[1..], if Toggles(t[0], NoQuote) then Toggle(t[0], NoQuote) else NoQuote, 1, len);
    }
  }

  /** The arguments of s, at most num of them. A '#' directly behind an argument ends the line. */
  function Tokens(s: string, num: nat, len: nat): seq<string>
    requires len >= 2
    decreases |s|
  {
    if s == [] || s[0] == '#' || num == 0 then []
    else
      OneConsumes(s, len);
      var (w, rest, n) := One(s, len);
      if n == 0 then [] else [w] + Tokens(rest, num - 1, len)
  }

  /** The same for any positive limit, and whether the loop gets stuck: a turn that neither
      consumes nor counts anything would be repeated for ever. */
  function Split(s: string, num: nat, len: nat): (seq<string>, bool)
    requires len >= 1
    decreases |s|
  {
    if s == [] || s[0] == '#' || num == 0 then ([], false)
    else
      var (w, rest, n) := One(s, len);
      if |rest| >= |s| then ([], true)
      else if n == 0 then Split(rest, num, len)
      else
        var (words, stuck) := Split(rest, num - 1, len);
        ([w] + words, stuck)
  }

  /** With room for a character the loop ends, with the arguments. */
  lemma {:induction false} SplitIsTokens(s: string, num: nat, len: nat)
    requires len >= 2
    ensures Split(s, num, len) == (Tokens(s, num, len), false)
    decreases |s|
  {
    if s != [] && s[0] != '#' && num > 0 {
      OneConsumes(s, len);
      var (w, rest, n) := One(s, len);
      if n > 0 { SplitIsTokens(rest, num - 1, len); }
    }
  }

  lemma {:induction false} OneShrinks(s: string, len: nat)
    ensures |One(s, len).1| <= |s|
  {
    GrabShape(Skip(s), NoQuote, 0, len);
  }

  // ---------- typing and tokenizing ----------

  /** An argument as it is typed: blanks, bare characters, and at most one part in quotes, which
      ends it. */
  datatype Word = Word(gap: string, bare: string, quote: Quote, text: string)

  function Mark(q: Quote): string {
    match q
    case NoQuote => ""
    case Single => "\'"
    case Double => "\""
  }

  function Typed(w: Word): string {
    w.gap + (w.bare + (Mark(w.quote) + (w.text + Mark(w.quote))))
  }

  /** The words as typed one behind the other, and what follows. */
  function Line(words: seq<Word>, tail: string): string {
    if words == [] then tail else Typed(words[0]) + Line(words[1..], tail)
  }

  /** What the first num of them stand for. */
  function Values(words: seq<Word>, num: nat): seq<string> {
    if words == [] || num == 0 then [] else [words[0].bare + words[0].text] + Values(words[1..], num - 1)
  }

  predicate Blank(s: string) {
    forall i :: 0 <= i < |s| ==> '\0' < s[i] <= ' '
  }

  predicate Bare(s: string) {
    forall i :: 0 <= i < |s| ==> s[i] > ' ' && s[i] != '\'' && s[i] != '\"'
  }

  /** What may stand between quotes: the other quote too. */
  predicate InQuotes(s: string, q: Quote) {
    q != NoQuote && forall i :: 0 <= i < |s| ==> s[i] >= ' ' && [s[i]] != Mark(q)
  }

  /** The word is made of what its parts allow, and leaves room in a buffer of len characters
      for its opening quote and the terminator. */
  predicate Fits(w: Word, len: nat) {
    && Blank(w.gap) && Bare(w.bare)
    && (if w.quote == NoQuote then w.text == "" && w.bare != "" else InQuotes(w.text, w.quote))
    && |w.bare| + |Mark(w.quote)| + |w.text| < len
  }

  predicate EndsWord(next: string) {
    next == "" || Blank(next[..1])
  }

  /** Each word fits, one without quotes is followed by a blank or nothing, and a '#' where the
      source looks for one, at the start and directly behind a quote, only begins the tail. */
  predicate Readable(words: seq<Word>, tail: string, len: nat) {
    if words == [] then Blank(tail) || tail[0] == '#'
    else
      && Fits(words[0], len) && !(words[0].gap == "" && words[0].bare != "" && words[0].bare[0] == '#')
      && (words[0].quote == NoQuote ==> EndsWord(Line(words[1..], tail)))
      && Readable(words[1..], tail, len)
  }

  lemma {:induction false} SkipBlank(gap: string, t: string)
    requires Blank(gap) && (t == "" || t[0] > ' ')
    ensures Skip(gap + t) == t
  {
    if gap == "" {
      assert gap + t == t;
    } else {
      assert (gap + t)[1..] == gap[1..] + t;
      SkipBlank(gap[1..], t);
    }
  }

  lemma {:induction false} GrabBare(w: string, rest: string, i: nat, len: nat)
    requires Bare(w) && i + |w| < len
    ensures Grab(w + rest, NoQuote, i, len) == Prepend(w, Grab(rest, NoQuote, i + |w|, len))
  {
    if w == "" {
      assert w + rest == rest;
      PrependNothing(Grab(rest, NoQuote, i, len));
    } else {
      assert (w + rest)[1..] == w[1..] + rest;
      GrabBare(w[1..], rest, i + 1, len);
      PrependTwice([w[0]], w[1..], Grab(rest, NoQuote, i + |w|, len));
      assert w == [w[0]] + w[1..];
    }
  }

  lemma {:induction false} GrabQuoted(w: string, q: Quote, rest: string, i: nat, len: nat)
    requires InQuotes(w, q) && Mark(q) <= rest && i + |w| < len
    ensures Grab(w + rest, q, i, len) == (w, rest, i + |w|)
  {
    if w == "" {
      assert w + rest == rest && rest[0] == Mark(q)[0];
    } else {
      assert (w + rest)[1..] == w[1..] + rest && [w[0]] != Mark(q);
      GrabQuoted(w[1..], q, rest, i + 1, len);
      assert w == [w[0]] + w[1..];
    }
  }

  lemma {:induction false} GrabWord(w: Word, rest: string, len: nat)
    requires Fits(w, len) && (w.quote == NoQuote ==> EndsWord(rest))
    ensures var m := Mark(w.quote);
      Grab(w.bare + (m + (w.text + (m + rest))), NoQuote, 0, len)
        == (w.bare + w.text, m + rest, |w.bare| + |m| + |w.text|)
  {
    var m, i := Mark(w.quote), |w.bare|;
    var more := m + (w.text + (m + rest));
    GrabBare(w.bare, more, 0, len);
    if w.quote == NoQuote {
      assert more == rest && m + rest == rest;
      assert rest != "" ==> rest[..1][0] == rest[0];
    } else {
      assert more[0] == m[0] && more[1..] == w.text + (m + rest);
      GrabQuoted(w.text, w.quote, m + rest, i + 1, len);
    }
  }

  lemma {:induction false} OneWord(w: Word, rest: string, len: nat)
    requires Fits(w, len) && (w.quote == NoQuote ==> EndsWord(rest))
    ensures var (word, left, n) := One(Typed(w) + rest, len); word == w.bare + w.text && left == rest && n > 0
  {
    var m := Mark(w.quote);
    var t := w.bare + (m + (w.text + (m + rest)));
    assert Typed(w) + rest == w.gap + t;
    assert t[0] == if w.bare != "" then w.bare[0] else m[0];
    SkipBlank(w.gap, t);
    GrabWord(w, rest, len);
    hide Grab, Skip;
    if w.quote == NoQuote {
      assert m + rest == rest && (rest != "" ==> rest[..1][0] == rest[0]);
    } else {
      assert (m + rest)[0] == m[0] && (m + rest)[1..] == rest;
    }
  }

  lemma {:induction false} NoCommentYet(w: Word, rest: string, len: nat)
    requires Fits(w, len) && !(w.gap == "" && w.bare != "" && w.bare[0] == '#')
    ensures Typed(w) != "" && (Typed(w) + rest)[0] != '#'
  {
    assert Typed(w)[0] == if w.gap != "" then w.gap[0] else if w.bare != "" then w.bare[0] else Mark(w.quote)[0];
  }

  lemma {:induction false} FirstToken(w: Word, rest: string, num: nat, len: nat)
    requires len >= 2 && Fits(w, len) && !(w.gap == "" && w.bare != "" && w.bare[0] == '#')
    requires w.quote == NoQuote ==> EndsWord(rest)
    ensures Tokens(Typed(w) + rest, num, len)
         == if num == 0 then [] else [w.bare + w.text] + Tokens(rest, num - 1, len)
  {
    OneWord(w, rest, len);
    NoCommentYet(w, rest, len);
    hide One, Fits, EndsWord, Typed;
  }

  /** Tokenizing undoes typing: the words come back without their blanks and quotes, as many as
      there are buffers, and nothing of what is behind a '#'. */
  lemma {:induction false} TokensUndoTyping(words: seq<Word>, tail: string, num: nat, len: nat)
    requires len >= 2 && Readable(words, tail, len)
    ensures Tokens(Line(words, tail), num, len) == Values(words, num)
    decreases |words|
  {
    if words == [] {
      BlankTail(tail, num, len);
    } else {
      var w, rest := words[0], Line(words[1..], tail);
      FirstToken(w, rest, num, len);
      hide Tokens, Fits, EndsWord, Typed;
      if num > 0 {
        TokensUndoTyping(words[1..], tail, num - 1, len);
      }
    }
  }

  lemma {:induction false} BlankTail(tail: string, num: nat, len: nat)
    requires len >= 2 && (Blank(tail) || tail[0] == '#')
    ensures Tokens(tail, num, len) == []
  {
    if tail != "" && tail[0] != '#' {
      SkipBlank(tail, "");
      assert tail + "" == tail;
    }
  }

  /** An argument too long for its buffer is cut, and goes on as the next one. */
  lemma {:induction false} LongWordIsCut(w: string, rest: string, len: nat)
    requires len >= 2 && Bare(w) && |w| >= len
    ensures One(w + rest, len) == (w[..len - 1], w[len - 1..] + rest, len - 1)
  {
    var a, b := w[..len - 1], w[len - 1..] + rest;
    assert w + rest == a + b && b[0] == w[len - 1];
    assert "" + (a + b) == a + b;
    SkipBlank("", a + b);
    GrabBare(a, b, 0, len);
    assert a + "" == a;
  }

  /** What is left of s after k turns of the outer loop. */
  function RestAfter(s: string, len: nat, k: nat): string
    decreases k
  {
    if k == 0 then s else RestAfter(One(s, len).1, len, k - 1)
  }

  /** With a length limit of 1, which no caller passes, the loop of the source would stay at an
      ordinary character for ever: no number of turns consumes or counts anything. */
  lemma {:induction false} NoRoomNoProgress(s: string, k: nat)
    requires s != [] && Inside(s[0], NoQuote) && !IsQuote(s[0])
    ensures RestAfter(s, 1, k) == s && One(RestAfter(s, 1, k), 1) == ([], s, 0)
  {
    if k > 0 { NoRoomNoProgress(s, k - 1); }
  }

  // ---------- the loops ----------

  /** cmd holds text and its terminator; the source must not read behind it. */
  predicate Terminated(cmd: string, end: nat) {
    end < |cmd| && cmd[end] == NUL && forall i :: 0 <= i < end ==> cmd[i] != NUL
  }

  /** The first loop of a turn. */
  method SkipBlanks(cmd: string, p: nat, ghost end: nat) returns (r: nat)
    requires Terminated(cmd, end) && p <= end
    ensures p <= r <= end && cmd[r..end] == Skip(cmd[p..end])
  {
    r := p;
    while !IsPrintable(cmd[r]) || IsSpace(cmd[r])
      invariant p <= r <= end && Skip(cmd[r..end]) == Skip(cmd[p..end])
      decreases end - r
    {
      assert cmd[r..end][1..] == cmd[r + 1..end];
      r := r + 1;
    }
    assert r < end ==> cmd[r..end][0] == cmd[r];
  }

  /** Row k of the argument buffers holds word w and its terminator. */
  ghost predicate Holds(argv: array2<char>, k: nat, w: string)
    reads argv
  {
    k < argv.Length0 && |w| < argv.Length1 && argv[k, |w|] == NUL && forall j :: 0 <= j < |w| ==> argv[k, j] == w[j]
  }

  /** The first n characters of row k are those of w. */
  ghost predicate RowStarts(argv: array2<char>, k: nat, w: string)
    reads argv
  {
    k < argv.Length0 && |w| <= argv.Length1 && forall j :: 0 <= j < |w| ==> argv[k, j] == w[j]
  }

  /** The second loop: copy one argument w into row k; it took i characters, n of them copied. */
  method GrabArg(cmd: string, p: nat, ghost end: nat, argv: array2<char>, k: nat, len: nat)
    returns (r: nat, i: nat, n: nat, ghost w: string)
    requires Terminated(cmd, end) && p <= end && k < argv.Length0 && 1 <= len <= argv.Length1
    modifies argv
    ensures p <= r <= end && n == |w| <= i < len
    ensures Grab(cmd[p..end], NoQuote, 0, len) == (w, cmd[r..end], i) && RowStarts(argv, k, w)
    ensures forall a, b :: 0 <= a < argv.Length0 && 0 <= b < argv.Length1 && a != k ==> argv[a, b] == old(argv[a, b])
  {
    hide Grab;
    r, i, n, w := p, 0, 0, "";
    var q := NoQuote;
    PrependNothing(Grab(cmd[p..end], NoQuote, 0, len));
    while Inside(cmd[r], q)
      invariant p <= r <= end && n == |w| <= i < len && RowStarts(argv, k, w)
      invariant Grab(cmd[p..end], NoQuote, 0, len) == Prepend(w, Grab(cmd[r..end], q, i, len))
      invariant forall a, b :: 0 <= a < argv.Length0 && 0 <= b < argv.Length1 && a != k ==>
        argv[a, b] == old(argv[a, b])
      decreases end - r
    {
      if cmd[r] == NUL || i >= len - 1 {
        argv[k, n] := NUL;
        break;
      }
      assert cmd[r..end][0] == cmd[r] && cmd[r..end][1..] == cmd[r + 1..end];
      GrabStep(cmd[r..end], q, i, len);
      PrependTwice(w, [cmd[r]], Grab(cmd[r + 1..end], q, i + 1, len));
      if q != Double && cmd[r] == '\'' {
        q := Toggle(cmd[r], q);
      } else if q != Single && cmd[r] == '\"' {
        q := Toggle(cmd[r], q);
      } else {
        argv[k, n] := cmd[r];
        n, w := n + 1, w + [cmd[r]];
      }
      r := r + 1;
      i := i + 1;
    }
    assert r < end ==> cmd[r..end][0] == cmd[r];
    GrabStep(cmd[r..end], q, i, len);
    assert w + "" == w;
  }

  lemma {:induction false} GrabStep(s: string, q: Quote, i: nat, len: nat)
    ensures s == [] || !Inside(s[0], q) || i + 1 >= len ==> Grab(s, q, i, len) == ("", s, i)
    ensures s != [] && Inside(s[0], q) && i + 1 < len ==>
      Grab(s, q, i, len) == if Toggles(s[0], q) then Grab(s[1..], Toggle(s[0], q), i + 1, len)
                            else Prepend([s[0]], Grab(s[1..], q, i + 1, len))
  {}

  lemma {:induction false} PrependNothing(g: (string, string, nat))
    ensures Prepend("", g) == g
  {
    assert "" + g.0 == g.0;
  }

  lemma {:induction false} PrependTwice(a: string, b: string, g: (string, string, nat))
    ensures Prepend(a, Prepend(b, g)) == Prepend(a + b, g)
  {
    assert a + (b + g.0) == a + b + g.0;
  }

  function Prepend(w: string, g: (string, string, nat)): (string, string, nat) {
    (w + g.0, g.1, g.2)
  }

  /** One turn of the outer loop: find an argument, copy it, step over a quote behind it, and
      terminate the copy if there was one. */
  method FindOne(cmd: string, p: nat, ghost end: nat, argv: array2<char>, k: nat, len: nat)
    returns (r: nat, i: nat, ghost w: string)
    requires Terminated(cmd, end) && p <= end && k < argv.Length0 && 1 <= len <= argv.Length1
    modifies argv
    ensures p <= r <= end && One(cmd[p..end], len) == (w, cmd[r..end], i) && (i > 0 ==> Holds(argv, k, w))
    ensures forall a, b :: 0 <= a < argv.Length0 && 0 <= b < argv.Length1 && a != k ==> argv[a, b] == old(argv[a, b])
  {
    hide Skip, Grab;
    r := SkipBlanks(cmd, p, end);
    var n;
    r, i, n, w := GrabArg(cmd, r, end, argv, k, len);
    assert r < end ==> cmd[r..end][0] == cmd[r] && cmd[r..end][1..] == cmd[r + 1..end];
    if cmd[r] == '\'' || cmd[r] == '\"' {
      r := r + 1;
      i := i + 1;
    }
    if i > 0 {
      argv[k, n] := NUL;
    }
  }

  /** The first rows of the buffers hold the words. */
  ghost predicate RowsHold(argv: array2<char>, words: seq<string>)
    reads argv
  {
    forall k :: 0 <= k < |words| ==> Holds(argv, k, words[k])
  }

  /** The same turn, for the row behind those that are done. */
  method FindNext(cmd: string, p: nat, ghost end: nat, argv: array2<char>, k: nat, len: nat, ghost done: seq<string>)
    returns (r: nat, i: nat, ghost w: string)
    requires Terminated(cmd, end) && p <= end && k == |done| < argv.Length0 && 1 <= len <= argv.Length1
    requires RowsHold(argv, done)
    modifies argv
    ensures p <= r <= end && One(cmd[p..end], len) == (w, cmd[r..end], i)
    ensures RowsHold(argv, done) && (i > 0 ==> RowsHold(argv, done + [w]))
  {
    hide One;
    r, i, w := FindOne(cmd, p, end, argv, k, len);
    forall j | 0 <= j < |done| ensures Holds(argv, j, done[j]) { assert old(Holds(argv, j, done[j])); }
  }

  /** _find_cmd_argv: the arguments of the command, each with its terminator in its buffer.
      stuck: the loop would not end. */
  method FindArgv(cmd: string, ghost end: nat, num: nat, len: nat, argv: array2<char>) returns (argc: nat, stuck: bool)
    requires Terminated(cmd, end) && num <= argv.Length0 && len <= argv.Length1
    modifies argv
    ensures len == 0 ==> argc == 0 && !stuck
    ensures len >= 1 ==> argc == |Split(cmd[..end], num, len).0| <= num && stuck == Split(cmd[..end], num, len).1
    ensures len >= 1 ==> RowsHold(argv, Split(cmd[..end], num, len).0)
    ensures len >= 2 ==> !stuck && argc == |Tokens(cmd[..end], num, len)|
    ensures len >= 2 ==> RowsHold(argv, Tokens(cmd[..end], num, len))
  {
    hide One, Tokens, Split, RowsHold;
    NoRows(argv);
    ghost var all := if len >= 1 then Split(cmd[..end], num, len) else ([], false);
    argc, stuck := 0, false;
    if len >= 1 { SplitNone(cmd[..end], num, len); }
    if len >= 2 { SplitIsTokens(cmd[..end], num, len); }
    if num == 0 || len == 0 { return; }
    var p := 0;
    ghost var done: seq<string> := [];
    assert cmd[0..end] == cmd[..end];
    AddNothing(all);
    while cmd[p] != NUL && cmd[p] != '#'
      invariant p <= end && argc == |done| < num && !stuck
      invariant all == Add(done, Split(cmd[p..end], num - argc, len))
      invariant RowsHold(argv, done)
      decreases end - p
    {
      ghost var s, w := cmd[p..end], "";
      assert s[0] == cmd[p];
      OneShrinks(s, len);
      SplitStep(s, num - argc, len);
      var i, before := 0, p;
      p, i, w := FindNext(cmd, p, end, argv, argc, len, done);
      if p == before {
        AddEmpty(done, true);
        return argc, true;
      }
      if i > 0 {
        AddTwice(done, [w], Split(cmd[p..end], num - argc - 1, len));
        argc, done := argc + 1, done + [w];
      }
      if argc >= num {
        SplitNone(cmd[p..end], 0, len);
        AddEmpty(done, false);
        break;
      }
    }
    assert p < end ==> cmd[p..end][0] == cmd[p];
    if argc < num { SplitNone(cmd[p..end], num - argc, len); }
    AddEmpty(done, false);
  }

  lemma {:induction false} NoRows(argv: array2<char>)
    ensures RowsHold(argv, [])
  {}

  function Add(done: seq<string>, r: (seq<string>, bool)): (seq<string>, bool) {
    (done + r.0, r.1)
  }

  lemma {:induction false} AddEmpty(done: seq<string>, stuck: bool)
    ensures Add(done, ([], stuck)) == (done, stuck)
  {
    assert done + [] == done;
  }

  lemma {:induction false} AddNothing(r: (seq<string>, bool))
    ensures Add([], r) == r
  {
    assert [] + r.0 == r.0;
  }

  lemma {:induction false} AddTwice(a: seq<string>, b: seq<string>, r: (seq<string>, bool))
    ensures Add(a, Add(b, r)) == Add(a + b, r)
  {
    Regroup(a, b, r.0);
  }

  lemma {:induction false} SplitNone(s: string, num: nat, len: nat)
    requires len >= 1
    ensures s == [] || s[0] == '#' || num == 0 ==> Split(s, num, len) == ([], false)
    ensures |Split(s, num, len).0| <= num
    decreases |s|
  {
    if s != [] && s[0] != '#' && num > 0 {
      var (w, rest, n) := One(s, len);
      if |rest| < |s| { SplitNone(rest, if n == 0 then num else num - 1, len); }
    }
  }

  lemma {:induction false} SplitStep(s: string, num: nat, len: nat)
    requires len >= 1 && s != [] && s[0] != '#' && num > 0
    ensures var (w, rest, n) := One(s, len);
      Split(s, num, len) == (if |rest| >= |s| then ([], true)
                             else if n == 0 then Split(rest, num, len)
                             else Add([w], Split(rest, num - 1, len)))
  {}
}
