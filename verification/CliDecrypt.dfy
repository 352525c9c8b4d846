/** Encrypted commands of the console (cli/cli_input.c): a line that starts with '~' is
    decrypted in place by an auto-key cipher over the 46 codes '-' to 'Z'. */
module CliDecrypt {

  const NUL: int := 0
  const TILDE: int := 126
  const FIRST: int := 45   // '-'
  const LAST: int := 90    // 'Z'
  const CODES: int := 46

  function ToLower(c: int): int {
    if 65 <= c <= 90 then c + 32 else c
  }

  function ToUpper(c: int): int {
    if 97 <= c <= 122 then c - 32 else c
  }

  /** _go_back_along_alp: key places back along the alphabet, wrapping at its start. */
  function Back(c: int, key: nat): int {
    var k := key % CODES;
    if c - k < FIRST then LAST - (k - (c - FIRST + 1)) else c - k
  }

  /** Lower-case letters stand for the codes 38 below them. */
  function Fold(c: int): int {
    if 97 <= c <= 122 then c - 38 else c
  }

  /** The character shown for a code. */
  function Show(c: int): int {
    Space(ToLower(c))
  }

  predicate Typed(s: seq<int>) {
    forall i :: 0 <= i < |s| ==> 32 <= s[i] <= 126
  }

  predicate NonNegative(cs: seq<int>) {
    forall i :: 0 <= i < |cs| ==> cs[i] >= 0
  }

  predicate IsCode(c: int) {
    FIRST <= c <= LAST
  }

  function FoldAll(s: seq<int>): (r: seq<int>)
    ensures |r| == |s|
    ensures forall i :: 0 <= i < |s| ==> r[i] == Fold(s[i])
  {
    seq(|s|, i requires 0 <= i < |s| => Fold(s[i]))
  }

  /** Each character is moved back by the one before it in the ciphertext. */
  function DecodeFrom(cs: seq<int>, key: nat): (r: seq<int>)
    requires NonNegative(cs)
    ensures |r| == |cs|
  {
    if cs == [] then [] else [Show(Back(ToUpper(cs[0]), key))] + DecodeFrom(cs[1..], cs[0])
  }

  /** The command hidden behind '~' in body, whose last character is the first key. */
  function Decode(body: seq<int>): seq<int>
    requires body != [] && Typed(body)
  {
    var n := |body| - 1;
    DecodeFrom(FoldAll(body[..n]), ToLower(body[n]))
  }

  /** What the loop has produced for the first i characters. */
  lemma {:induction false} DecodePrefix(cs: seq<int>, key: nat, i: nat)
    requires i < |cs| && NonNegative(cs)
    ensures DecodeFrom(cs, key)[i] == Show(Back(ToUpper(cs[i]), KeyAt(cs, key, i)))
    decreases |cs|
  {
    if |cs| > 1 { DecodePrefix(cs[1..], cs[0], if i == 0 then 0 else i - 1); }
  }

  /** strlen of the text at position `from` */
  method StrLen(cmd: array<int>, from: nat, ghost text: seq<int>) returns (n: nat)
    requires from + |text| < cmd.Length && cmd[from..from + |text|] == text && cmd[from + |text|] == NUL
    requires forall i :: 0 <= i < |text| ==> text[i] != NUL
    ensures n == |text|
  {
    n := 0;
    assert forall i :: 0 <= i < |text| ==> cmd[from + i] == text[i];
    while cmd[from + n] != NUL
      invariant n <= |text|
      decreases |text| - n
    {
      n := n + 1;
    }
  }

  /** The first loop: fold the n characters behind '~' in place. */
  method FoldInPlace(cmd: array<int>, n: nat)
    requires n < cmd.Length
    modifies cmd
    ensures cmd[1..n + 1] == FoldAll(old(cmd[1..n + 1])) && cmd[n + 1..] == old(cmd[n + 1..]) && cmd[0] == old(cmd[0])
  {
    var i := 0;
    while i < n
      invariant i <= n
      invariant forall j :: 0 <= j < cmd.Length ==> cmd[j] == if 1 <= j <= i then Fold(old(cmd[j])) else old(cmd[j])
    {
      if 97 <= cmd[i + 1] <= 122 {
        cmd[i + 1] := cmd[i + 1] - 38;
      }
      i := i + 1;
    }
  }

  /** The key of character i: the one before it. */
  function KeyAt(cs: seq<int>, first: nat, i: nat): nat
    requires i <= |cs| && NonNegative(cs)
  {
    if i == 0 then first else cs[i - 1]
  }

  /** The second loop: move each of the n codes behind '~' back by its predecessor. */
  method MoveBack(cmd: array<int>, temp: array<int>, n: nat, first: nat)
    requires n < cmd.Length == temp.Length && temp != cmd && NonNegative(cmd[1..n + 1])
    modifies temp
    ensures forall j :: 0 <= j < n ==> temp[j] == ToLower(Back(ToUpper(cmd[j + 1]), KeyAt(cmd[1..n + 1], first, j)))
  {
    ghost var cs := cmd[1..n + 1];
    var i, key := 0, first;
    while i < n
      invariant i <= n && key == KeyAt(cs, first, i)
      invariant forall j :: 0 <= j < i ==> temp[j] == ToLower(Back(ToUpper(cmd[j + 1]), KeyAt(cs, first, j)))
    {
      temp[i] := ToLower(Back(ToUpper(cmd[i + 1]), key));
      key := cmd[i + 1];
      i := i + 1;
    }
  }

  /** The character for a code, apart from its case. */
  function Space(d: int): int {
    if d == 45 then 32 else if d == 58 then 95 else d
  }

  /** The third loop: the codes for blank and underscore. */
  method Translate(temp: array<int>, n: nat)
    requires n <= temp.Length
    modifies temp
    ensures forall j :: 0 <= j < n ==> temp[j] == Space(old(temp[j]))
  {
    var i := 0;
    while i < n
      invariant i <= n
      invariant forall j :: 0 <= j < i ==> temp[j] == Space(old(temp[j]))
      invariant forall j :: i <= j < n ==> temp[j] == old(temp[j])
    {
      if temp[i] == 45 { temp[i] := 32; }
      if temp[i] == 58 { temp[i] := 95; }
      i := i + 1;
    }
  }

  /** The loops after the first: decode into a second buffer, copy back to the start. */
  method DecodeInPlace(cmd: array<int>, n: nat, first: nat)
    requires n < cmd.Length && NonNegative(cmd[1..n + 1])
    modifies cmd
    ensures cmd[..n] == DecodeFrom(old(cmd[1..n + 1]), first) && cmd[n..] == old(cmd[n..])
  {
    hide Back, ToUpper, ToLower, DecodeFrom, NonNegative;
    ghost var cs := cmd[1..n + 1];
    var temp := new int[cmd.Length];
    MoveBack(cmd, temp, n, first);
    Translate(temp, n);
    DecodeAt(cs, first);
    ghost var plain := DecodeFrom(cs, first);
    assert temp[..n] == plain by {
      forall j | 0 <= j < n ensures temp[j] == plain[j] { assert cmd[j + 1] == cs[j]; }
    }
    var i := 0;
    while i < n
      invariant i <= n && temp[..n] == plain
      invariant cmd[..i] == plain[..i] && cmd[i..] == old(cmd[i..])
    {
      assert temp[..n][i] == plain[i];
      cmd[i] := temp[i];
      i := i + 1;
      assert cmd[i..] == old(cmd[i - 1..])[1..];
    }
  }

  lemma {:induction false} DecodeAt(cs: seq<int>, key: nat)
    requires NonNegative(cs)
    ensures forall i :: 0 <= i < |cs| ==> DecodeFrom(cs, key)[i] == Show(Back(ToUpper(cs[i]), KeyAt(cs, key, i)))
  {
    forall i | 0 <= i < |cs|
      ensures DecodeFrom(cs, key)[i] == Show(Back(ToUpper(cs[i]), KeyAt(cs, key, i)))
    {
      DecodePrefix(cs, key, i);
    }
  }

  /** The bound of the loops: the length behind '~' less one, in 32 bits. */
  function Bound(len: nat): nat {
    (len - 1) % 0x1_0000_0000
  }

  /** _cli_decrypt_cmd on a line that holds '~', body and NUL. inBounds: the loops stay inside
      the buffer; if they do not, the model stops in front of the first of them. They do
      exactly if there is a character behind '~', and then the line becomes the decrypted
      command, two characters shorter than what was typed. */
  method DecryptCmd(cmd: array<int>, ghost body: seq<int>) returns (len: nat, inBounds: bool)
    requires Typed(body) && |body| + 2 <= cmd.Length < 0x1_0000_0000
    requires cmd[1..|body| + 1] == body && cmd[|body| + 1] == NUL
    modifies cmd
    ensures len == |body| && (inBounds <==> body != [])
    ensures inBounds ==> |Decode(body)| == len - 1 && cmd[..len - 1] == Decode(body)
    ensures inBounds ==> cmd[len - 1] == NUL && cmd[len..] == old(cmd[len..])
    ensures !inBounds ==> cmd[..] == old(cmd[..])
  {
    len := StrLen(cmd, 1, body);
    var n := Bound(len);
    inBounds := n < cmd.Length - 1;
    LoneTilde(len, cmd.Length);
    if !inBounds {
      return;
    }
    assert body[..n] == cmd[1..n + 1] && body[n] == cmd[len];
    FoldInPlace(cmd, n);
    assert cmd[n + 1] == cmd[n + 1..][0] == body[n];
    label folded:
    DecodeAt(FoldAll(body[..n]), ToLower(body[n]));
    DecodeInPlace(cmd, n, ToLower(cmd[len]));
    assert cmd[..n] == Decode(body);
    assert cmd[len..] == cmd[n..][1..] == old@folded(cmd[n..])[1..] == old@folded(cmd[len..]);
    cmd[n] := NUL;
  }

  /** What the input thread does with a line before it parses it: a line that starts with '~' is
      decrypted. end: where the thread takes the line to end, which is its terminator. */
  method Enter(cmd: array<int>, length: nat, ghost text: seq<int>) returns (end: int, inBounds: bool)
    requires Typed(text) && |text| == length && length + 1 <= cmd.Length < 0x1_0000_0000
    requires cmd[..length] == text && cmd[length] == NUL
    modifies cmd
    ensures inBounds <==> text != [TILDE]
    ensures inBounds && text != [] && text[0] == TILDE ==> end == length - 2 && cmd[..end] == Decode(text[1..])
    ensures text == [] || text[0] != TILDE ==> end == length && cmd[..] == old(cmd[..])
    ensures inBounds ==> 0 <= end < cmd.Length && cmd[end] == NUL
  {
    end, inBounds := length, true;
    assert length > 0 ==> cmd[0] == cmd[..length][0] == text[0];
    if cmd[0] == TILDE {
      assert cmd[1..length] == text[1..];
      var len;
      len, inBounds := DecryptCmd(cmd, text[1..]);
      end := end - 2;
    }
  }

  /** The bound leaves the last place for the terminator exactly if there is a character behind
      '~'. */
  lemma {:induction false} LoneTilde(len: nat, size: nat)
    requires len + 2 <= size < 0x1_0000_0000
    ensures Bound(len) < size - 1 <==> len >= 1
    ensures len >= 1 ==> Bound(len) == len - 1
  {}

  // ---------- decoding in closed form ----------

  /** The code typed for a place of the alphabet: itself, or a letter 38 above it. */
  function Code(c: int): int {
    if 97 <= c <= 122 then c - 38 else c
  }

  /** The alphabet by place: blank, the characters behind '-' with '_' for the colon, and the
      small letters. */
  function Letter(k: nat): int {
    if k == 0 then 32 else if k == 13 then 95 else if k < 20 then 45 + k else 77 + k
  }

  /** Character i of the command is the letter as many places behind the code typed for it as
      the code typed before it says; in front of the first stands the last character, as a small
      letter if it is one. */
  lemma {:induction false} DecodedLetter(body: seq<int>, i: nat)
    requires Typed(body) && i + 1 < |body| && 45 <= Code(body[i]) <= 90
    ensures |Decode(body)| == |body| - 1
    ensures var last := body[|body| - 1];
      var key := if i > 0 then Code(body[i - 1]) else if 65 <= last <= 90 then last + 32 else last;
      Decode(body)[i] == Letter((Code(body[i]) - 45 - key) % 46)
  {
    var n := |body| - 1;
    var cs, first := FoldAll(body[..n]), ToLower(body[n]);
    assert forall j :: 0 <= j < n ==> body[..n][j] == body[j];
    DecodePrefix(cs, first, i);
    BackIsModular(cs[i], KeyAt(cs, first, i));
  }

  lemma {:induction false} BackIsModular(c: int, key: nat)
    requires IsCode(c)
    ensures Show(Back(ToUpper(c), key)) == Letter((c - 45 - key) % 46)
  {}

  // ---------- decoding is a bijection ----------

  /** The characters commands are made of: those shown for the 46 codes. */
  predicate IsPlain(c: int) {
    c == 32 || c == 95 || 46 <= c <= 57 || 59 <= c <= 64 || 97 <= c <= 122
  }

  /** The code shown as c. */
  function Hide(c: int): int {
    if c == 32 then 45 else if c == 95 then 58 else ToUpper(c)
  }

  /** Key places forward along the alphabet, wrapping at its end. */
  function Forth(c: int, key: nat): int {
    var d := c + key % CODES;
    if d > LAST then d - CODES else d
  }

  function EncodeFrom(ps: seq<int>, key: nat): (r: seq<int>)
    requires forall i :: 0 <= i < |ps| ==> IsPlain(ps[i])
    ensures |r| == |ps| && forall i :: 0 <= i < |r| ==> FIRST <= r[i] <= LAST
  {
    if ps == [] then []
    else
      var c := Forth(Hide(ps[0]), key);
      assert IsPlain(ps[0]);
      OneCode(Hide(ps[0]), key);
      [c] + EncodeFrom(ps[1..], c)
  }

  /** What to type behind '~' for a command and a final key character. */
  function Encode(ps: seq<int>, last: int): seq<int>
    requires (forall i :: 0 <= i < |ps| ==> IsPlain(ps[i])) && 32 <= last <= 126
  {
    EncodeFrom(ps, ToLower(last)) + [last]
  }

  lemma {:induction false} OneCode(c: int, key: nat)
    requires IsCode(c)
    ensures IsCode(Back(c, key)) && Forth(Back(c, key), key) == c
    ensures IsPlain(Show(c)) && Hide(Show(c)) == c && ToUpper(c) == c
    ensures IsCode(Forth(c, key)) && Back(Forth(c, key), key) == c
  {}

  lemma {:induction false} OnePlain(p: int)
    requires IsPlain(p)
    ensures IsCode(Hide(p)) && Show(Hide(p)) == p
  {}

  lemma {:induction false} DecodeEncodeFrom(ps: seq<int>, key: nat)
    requires forall i :: 0 <= i < |ps| ==> IsPlain(ps[i])
    ensures DecodeFrom(EncodeFrom(ps, key), key) == ps
  {
    hide Back, Forth, Show, Hide, ToUpper, IsPlain;
    if ps != [] {
      OnePlain(ps[0]);
      OneCode(Hide(ps[0]), key);
      var c := Forth(Hide(ps[0]), key);
      OneCode(c, key);
      DecodeEncodeFrom(ps[1..], c);
      assert EncodeFrom(ps, key)[1..] == EncodeFrom(ps[1..], c);
      assert ps == [ps[0]] + ps[1..];
    }
  }

  lemma {:induction false} EncodeDecodeFrom(cs: seq<int>, key: nat)
    requires forall i :: 0 <= i < |cs| ==> FIRST <= cs[i] <= LAST
    ensures forall i :: 0 <= i < |DecodeFrom(cs, key)| ==> IsPlain(DecodeFrom(cs, key)[i])
    ensures EncodeFrom(DecodeFrom(cs, key), key) == cs
  {
    hide Back, Forth, Show, Hide, ToUpper, IsPlain;
    if cs != [] {
      OneCode(cs[0], key);
      OneCode(Back(cs[0], key), key);
      EncodeDecodeFrom(cs[1..], cs[0]);
      assert DecodeFrom(cs, key)[1..] == DecodeFrom(cs[1..], cs[0]);
    }
  }

  /** Every command over the plain characters is what some line decrypts to, whatever the
      final key character. */
  lemma {:induction false} DecryptUndoesEncrypt(ps: seq<int>, last: int)
    requires (forall i :: 0 <= i < |ps| ==> IsPlain(ps[i])) && 32 <= last <= 126
    ensures Typed(Encode(ps, last)) && |Encode(ps, last)| == |ps| + 1 && Decode(Encode(ps, last)) == ps
  {
    var e := EncodeFrom(ps, ToLower(last));
    assert Encode(ps, last)[..|ps|] == e;
    assert FoldAll(e) == e;
    DecodeEncodeFrom(ps, ToLower(last));
  }

  /** And it determines that line, up to typing a code as its lower-case letter: two lines
      with the same last character decrypt alike exactly if they fold alike. */
  lemma {:induction false} DecryptIsInjective(a: seq<int>, b: seq<int>)
    requires a != [] && b != [] && Typed(a) && Typed(b) && a[|a| - 1] == b[|b| - 1]
    requires forall i :: 0 <= i < |a| - 1 ==> IsCode(Fold(a[i]))
    requires forall i :: 0 <= i < |b| - 1 ==> IsCode(Fold(b[i]))
    ensures Decode(a) == Decode(b) <==> FoldAll(a[..|a| - 1]) == FoldAll(b[..|b| - 1])
  {
    var key := ToLower(a[|a| - 1]);
    EncodeDecodeFrom(FoldAll(a[..|a| - 1]), key);
    EncodeDecodeFrom(FoldAll(b[..|b| - 1]), key);
  }
}
