/** replaceWithMap: one strings.ReplaceAll per map entry, in whatever order the map is visited. */
module Template {
  import opened Common

  /** strings.ReplaceAll for a non-empty `old`: leftmost matches, not overlapping. */
  function ReplaceAll(s: string, old_: string, new_: string): string
    requires old_ != ""
    decreases |s|
  {
    if |s| < |old_| then s
    else if s[..|old_|] == old_ then new_ + ReplaceAll(s[|old_|..], old_, new_)
    else [s[0]] + ReplaceAll(s[1..], old_, new_)
  }

  lemma OccursInTail(s: string, text: string, j: nat)
    requires s != ""
    ensures OccursAt(s[1..], text, j) <==> OccursAt(s, text, j + 1)
  {
    if j + 1 + |text| <= |s| {
      assert s[1..][j..j + |text|] == s[j + 1..j + 1 + |text|];
    }
  }

  lemma ReplaceAllStep(s: string, old_: string, new_: string)
    requires old_ != ""
    ensures OccursAt(s, old_, 0) ==> ReplaceAll(s, old_, new_) == new_ + ReplaceAll(s[|old_|..], old_, new_)
    ensures !OccursAt(s, old_, 0) && s != "" ==> ReplaceAll(s, old_, new_) == [s[0]] + ReplaceAll(s[1..], old_, new_)
    ensures s == "" ==> ReplaceAll(s, old_, new_) == ""
  {
    if s != "" && |s| < |old_| {
      assert ReplaceAll(s, old_, new_) == s == [s[0]] + s[1..];
    }
  }

  /** Up to the first occurrence at `i` nothing changes, there the text is replaced, and what follows
      it is treated likewise; `|s|` stands for no occurrence. */
  lemma {:induction false} ReplaceAllIs(s: string, old_: string, new_: string, i: nat)
    requires old_ != "" && i <= |s| && forall j: nat :: j < i ==> !OccursAt(s, old_, j)
    requires i < |s| ==> OccursAt(s, old_, i)
    ensures i < |s| ==> i + |old_| <= |s|
    ensures ReplaceAll(s, old_, new_)
         == if i == |s| then s else s[..i] + new_ + ReplaceAll(s[i + |old_|..], old_, new_)
    decreases |s|
  {
    ReplaceAllStep(s, old_, new_);
    assert i < |s| ==> i + |old_| <= |s|;
    hide OccursAt, ReplaceAll;
    if i > 0 {
      var t := s[1..];
      forall j: nat | j <= i - 1 ensures OccursAt(t, old_, j) <==> OccursAt(s, old_, j + 1) {
        OccursInTail(s, old_, j);
      }
      ReplaceAllIs(t, old_, new_, i - 1);
      if i < |s| {
        var rest := ReplaceAll(s[i + |old_|..], old_, new_);
        assert t[i - 1 + |old_|..] == s[i + |old_|..];
        assert [s[0]] + (t[..i - 1] + new_ + rest) == s[..i] + new_ + rest;
      }
    } else if i < |s| {
      assert s[..0] + new_ == new_;
    }
  }

  function ReplaceOne(s: string, e: Entry): string {
    if e.key == "" then s else ReplaceAll(s, e.key, e.value)
  }

  /** The entries applied one after the other, in visiting order. */
  function ReplaceInOrder(s: string, es: seq<Entry>): string {
    if es == [] then s else ReplaceOne(ReplaceInOrder(s, es[..|es| - 1]), es[|es| - 1])
  }

  method ReplaceWithMap(s: string, es: seq<Entry>) returns (str: string)
    ensures str == ReplaceInOrder(s, es)
  {
    str := s;
    for i := 0 to |es|
      invariant str == ReplaceInOrder(s, es[..i])
    {
      assert es[..i + 1][..i] == es[..i];
      if es[i].key != "" {
        str := ReplaceAll(str, es[i].key, es[i].value);
      }
    }
    assert es[..|es|] == es;
  }

  /** An entry with the empty key might as well not be there. */
  lemma {:induction false} EmptyKeysAreSkipped(s: string, es: seq<Entry>, i: nat)
    requires i < |es| && es[i].key == ""
    ensures ReplaceInOrder(s, es) == ReplaceInOrder(s, es[..i] + es[i + 1..])
    decreases |es|
  {
    var n := |es| - 1;
    var fs := es[..i] + es[i + 1..];
    if i == n {
      assert fs == es[..n];
    } else {
      EmptyKeysAreSkipped(s, es[..n], i);
      assert fs[..n - 1] == es[..n][..i] + es[..n][i + 1..] && fs[n - 1] == es[n];
    }
  }

  // ---------------------------------------------------------------- templates

  /** A template is made of literal text and `${id}` tokens. */
  datatype Piece = Lit(text: string) | Tok(id: string)

  predicate DollarFree(s: string) {
    '$' !in s
  }

  predicate IdText(s: string) {
    '$' !in s && '}' !in s
  }

  predicate WellFormed(p: Piece) {
    match p
    case Lit(text) => DollarFree(text)
    case Tok(id) => IdText(id)
  }

  predicate AllWellFormed(ps: seq<Piece>) {
    forall p :: p in ps ==> WellFormed(p)
  }

  function Token(id: string): string {
    "${" + id + "}"
  }

  function Render(p: Piece): string {
    match p
    case Lit(text) => text
    case Tok(id) => Token(id)
  }

  function RenderAll(ps: seq<Piece>): string {
    if ps == [] then "" else Render(ps[0]) + RenderAll(ps[1..])
  }

  /** Every key of the map is a token, every value is free of `$`. */
  ghost predicate TokenMap(m: map<string, string>) {
    forall k :: k in m ==> DollarFree(m[k]) && exists id :: IdText(id) && k == Token(id)
  }

  /** One simultaneous left-to-right substitution. */
  function Substitute(ps: seq<Piece>, m: map<string, string>): string {
    if ps == [] then ""
    else
      (match ps[0]
       case Lit(text) => text
       case Tok(id) => if Token(id) in m then m[Token(id)] else Token(id))
      + Substitute(ps[1..], m)
  }

  /** `key` replaced in the pieces rather than in the text. */
  function Fill(p: Piece, e: Entry): Piece {
    match p
    case Lit(_) => p
    case Tok(id) => if Token(id) == e.key then Lit(e.value) else p
  }

  function FillAll(ps: seq<Piece>, e: Entry): (r: seq<Piece>)
    ensures |r| == |ps| && forall i :: 0 <= i < |ps| ==> r[i] == Fill(ps[i], e)
  {
    seq(|ps|, i requires 0 <= i < |ps| => Fill(ps[i], e))
  }

  // ---------------------------------------------------------------- text and pieces agree

  /** No match starts in text without the key's first character. */
  lemma {:induction false} SkipsText(t: string, rest: string, key: string, v: string)
    requires key != "" && key[0] !in t
    ensures ReplaceAll(t + rest, key, v) == t + ReplaceAll(rest, key, v)
    decreases |t|
  {
    var s := t + rest;
    if t == "" {
      assert s == rest;
    } else if |s| >= |key| {
      assert s[..|key|][0] == t[0];
      assert s[1..] == t[1..] + rest;
      SkipsText(t[1..], rest, key, v);
      assert [t[0]] + (t[1..] + ReplaceAll(rest, key, v)) == t + ReplaceAll(rest, key, v);
    }
  }

  /** A token is matched by its own key only. */
  lemma TokenPrefix(id: string, key: string, rest: string)
    requires IdText(id) && IdText(key) && id != key && |Token(key)| <= |Token(id) + rest|
    ensures (Token(id) + rest)[..|Token(key)|] != Token(key)
  {
    var s, k := Token(id) + rest, Token(key);
    assert k[|k| - 1] == '}' && forall i :: 0 <= i < |key| ==> k[2 + i] == key[i];
    assert s[2 + |id|] == '}' && forall i :: 0 <= i < |id| ==> s[2 + i] == id[i];
    if |key| < |id| {
      assert s[|k| - 1] == id[|key|] && id[|key|] in id;
    } else if |id| < |key| {
      assert k[2 + |id|] == key[|id|] && key[|id|] in key;
      assert s[..|k|][2 + |id|] == '}';
    } else {
      var i :| 0 <= i < |id| && id[i] != key[i];
      assert s[..|k|][2 + i] == id[i];
    }
  }

  lemma ReplacesToken(id: string, rest: string, key: string, v: string)
    requires IdText(id) && IdText(key)
    ensures ReplaceAll(Token(id) + rest, Token(key), v)
         == (if id == key then v else Token(id)) + ReplaceAll(rest, Token(key), v)
  {
    var s, k := Token(id) + rest, Token(key);
    assert k[0] == '$';
    if id == key {
      assert s[..|k|] == k && s[|k|..] == rest;
    } else {
      var tail := "{" + id + "}";
      assert '$' !in tail;
      if |s| >= |k| {
        TokenPrefix(id, key, rest);
        assert s[1..] == tail + rest;
        SkipsText(tail, rest, k, v);
        assert ['$'] + tail == Token(id);
        assert [s[0]] + (tail + ReplaceAll(rest, k, v)) == Token(id) + ReplaceAll(rest, k, v);
      }
    }
  }

  lemma {:induction false} ReplaceFillsPieces(ps: seq<Piece>, key: string, v: string)
    requires AllWellFormed(ps) && IdText(key)
    ensures ReplaceAll(RenderAll(ps), Token(key), v) == RenderAll(FillAll(ps, Entry(Token(key), v)))
    decreases |ps|
  {
    var e := Entry(Token(key), v);
    if ps == [] {
    } else {
      var rest := ps[1..];
      assert ps[0] in ps;
      ReplaceFillsPieces(rest, key, v);
      assert FillAll(ps, e)[1..] == FillAll(rest, e);
      match ps[0] {
        case Lit(text) =>
          SkipsText(text, RenderAll(rest), Token(key), v);
        case Tok(id) =>
          ReplacesToken(id, RenderAll(rest), key, v);
          TokensDiffer(id, key);
      }
    }
  }

  lemma TokensDiffer(a: string, b: string)
    ensures Token(a) == Token(b) <==> a == b
  {
    if Token(a) == Token(b) {
      assert a == Token(a)[2..2 + |a|] && b == Token(b)[2..2 + |b|];
    }
  }

  // ---------------------------------------------------------------- order

  /** The pieces after all the entries. */
  function FillInOrder(ps: seq<Piece>, es: seq<Entry>): seq<Piece> {
    if es == [] then ps else FillAll(FillInOrder(ps, es[..|es| - 1]), es[|es| - 1])
  }

  ghost predicate TokenEntry(e: Entry) {
    DollarFree(e.value) && exists id :: IdText(id) && e.key == Token(id)
  }

  lemma {:induction false} ReplaceInOrderFills(ps: seq<Piece>, es: seq<Entry>)
    requires AllWellFormed(ps) && forall e :: e in es ==> TokenEntry(e)
    ensures AllWellFormed(FillInOrder(ps, es)) && |FillInOrder(ps, es)| == |ps|
    ensures ReplaceInOrder(RenderAll(ps), es) == RenderAll(FillInOrder(ps, es))
    decreases |es|
  {
    if es != [] {
      var n := |es| - 1;
      forall e | e in es[..n] ensures TokenEntry(e) {
        assert e in es;
      }
      ReplaceInOrderFills(ps, es[..n]);
      var qs, e := FillInOrder(ps, es[..n]), es[n];
      assert e in es;
      var id :| IdText(id) && e.key == Token(id);
      ReplaceFillsPieces(qs, id, e.value);
      assert AllWellFormed(FillAll(qs, e)) by {
        forall p | p in FillAll(qs, e) ensures WellFormed(p) {
          var i :| 0 <= i < |qs| && FillAll(qs, e)[i] == p;
          assert qs[i] in qs;
        }
      }
    }
  }

  /** After some of the entries, a piece is filled exactly when its key was among them. */
  lemma {:induction false} FilledSoFar(ps: seq<Piece>, es: seq<Entry>, m: map<string, string>, i: nat)
    requires (forall e :: e in es ==> e.key in m && m[e.key] == e.value) && i < |ps|
    ensures |FillInOrder(ps, es)| == |ps|
    ensures FillInOrder(ps, es)[i]
         == if ps[i].Tok? && exists e :: e in es && e.key == Token(ps[i].id) then Lit(m[Token(ps[i].id)]) else ps[i]
    decreases |es|
  {
    if es != [] {
      var n := |es| - 1;
      assert forall e :: e in es[..n] ==> e in es;
      FilledSoFar(ps, es[..n], m, i);
      assert es[n] in es;
      if ps[i].Tok? && exists e :: e in es && e.key == Token(ps[i].id) {
        var e :| e in es && e.key == Token(ps[i].id);
        assert e in es[..n] || e == es[n];
      }
    }
  }

  lemma {:induction false} RenderIsSubstitute(ps: seq<Piece>, qs: seq<Piece>, m: map<string, string>)
    requires |qs| == |ps|
    requires forall i :: 0 <= i < |ps| ==>
               qs[i] == if ps[i].Tok? && Token(ps[i].id) in m then Lit(m[Token(ps[i].id)]) else ps[i]
    ensures RenderAll(qs) == Substitute(ps, m)
    decreases |ps|
  {
    if ps != [] {
      RenderIsSubstitute(ps[1..], qs[1..], m);
    }
  }

  /** Every visiting order gives the one simultaneous substitution. */
  lemma {:induction false} SubstitutionIsOrderFree(ps: seq<Piece>, es: seq<Entry>, m: map<string, string>)
    requires AllWellFormed(ps) && TokenMap(m) && Enumerates(es, m)
    ensures ReplaceInOrder(RenderAll(ps), es) == Substitute(ps, m)
  {
    forall e | e in es ensures TokenEntry(e) {
      assert e.key in m;
    }
    ReplaceInOrderFills(ps, es);
    var qs := FillInOrder(ps, es);
    forall i | 0 <= i < |ps|
      ensures qs[i] == if ps[i].Tok? && Token(ps[i].id) in m then Lit(m[Token(ps[i].id)]) else ps[i]
    {
      FilledSoFar(ps, es, m, i);
      if ps[i].Tok? && Token(ps[i].id) in m {
        assert Entry(Token(ps[i].id), m[Token(ps[i].id)]) in es;
      }
    }
    RenderIsSubstitute(ps, qs, m);
  }

  /** A value that contains a token breaks this: two orders, two results. */
  lemma OrderMattersWithTokenValues()
    ensures var a, b := Entry("${a}", "${b}"), Entry("${b}", "x");
            ReplaceInOrder("${a}", [a, b]) == "x" && ReplaceInOrder("${a}", [b, a]) == "${b}"
  {
    var a, b := Entry("${a}", "${b}"), Entry("${b}", "x");
    assert Token("a") == "${a}" && Token("b") == "${b}";
    assert IdText("a") && IdText("b") && "a" != "b";
    assert forall s: string :: s + "" == s;
    ReplacesToken("a", "", "a", "${b}");
    ReplacesToken("b", "", "b", "x");
    ReplacesToken("a", "", "b", "x");
    assert [a, b][..1] == [a] && [b, a][..1] == [b] && [a][..0] == [] && [b][..0] == [];
    assert ReplaceInOrder("${a}", [a]) == ReplaceOne(ReplaceInOrder("${a}", []), a) == "${b}";
    assert ReplaceInOrder("${a}", [b]) == ReplaceOne(ReplaceInOrder("${a}", []), b) == "${a}";
  }
}
