/** Splitting a line into words and runs of spaces, with each code kept at the grapheme it precedes. */
module Tokens {
  import opened Text
  import opened Marks

  function Flatten(tokens: seq<Line>): Line {
    if tokens == [] then [] else tokens[0] + Flatten(tokens[1..])
  }

  lemma {:induction false} FlattenSnoc(tokens: seq<Line>, token: Line)
    ensures Flatten(tokens + [token]) == Flatten(tokens) + token
    decreases |tokens|
  {
    if tokens == [] {
      assert [token][1..] == [];
    } else {
      assert (tokens + [token])[1..] == tokens[1..] + [token];
      FlattenSnoc(tokens[1..], token);
    }
  }

  predicate HasInk(line: Line) {
    exists i :: 0 <= i < |line| && IsInk(line[i])
  }

  predicate HasGrapheme(line: Line) {
    exists i :: 0 <= i < |line| && line[i].Grapheme?
  }

  /** Space is the only blank grapheme. */
  ghost predicate OnlySpaces(line: Line) {
    forall i :: 0 <= i < |line| && IsBlank(line[i]) ==> line[i].text == " "
  }

  /** No two neighbouring tokens are both without ink. */
  ghost predicate Alternating(tokens: seq<Line>) {
    forall i :: 0 < i < |tokens| ==> HasInk(tokens[i - 1]) || HasInk(tokens[i])
  }

  // ----- where tokens end -----

  predicate IsSpaceGrapheme(item: Item) { item.Grapheme? && item.text == " " }

  /** A grapheme at which a line may be broken on either side. */
  predicate BreaksAnywhere(item: Item, isCjk: string -> bool) {
    item.Grapheme? && item.text != " " && isCjk(item.text)
  }

  /** Whether two neighbouring graphemes belong to different tokens. */
  predicate Apart(a: Item, b: Item, isCjk: string -> bool) {
    IsSpaceGrapheme(a) != IsSpaceGrapheme(b) || BreaksAnywhere(a, isCjk) || BreaksAnywhere(b, isCjk)
  }

  ghost predicate OneToken(token: Line, isCjk: string -> bool) {
    forall i, j :: 0 <= i < j < |token| && token[i].Grapheme? && token[j].Grapheme? ==>
      !Apart(token[i], token[j], isCjk)
  }

  ghost predicate Separate(a: Line, b: Line, isCjk: string -> bool) {
    forall i, j :: 0 <= i < |a| && 0 <= j < |b| && a[i].Grapheme? && b[j].Grapheme? ==> Apart(a[i], b[j], isCjk)
  }

  /** The tokens of a line with graphemes: it is cut exactly between the neighbouring graphemes that belong apart, and
      codes stay with the grapheme they precede. */
  ghost predicate Tokenized(tokens: seq<Line>, line: Line, isCjk: string -> bool) {
    && Flatten(tokens) == line
    && (forall k :: 0 <= k < |tokens| ==> HasGrapheme(tokens[k]) && OneToken(tokens[k], isCjk))
    && (forall k :: 0 < k < |tokens| ==> Separate(tokens[k - 1], tokens[k], isCjk))
    && (forall k :: 0 <= k < |tokens| - 1 ==> tokens[k][|tokens[k]| - 1].Grapheme?)
  }

  datatype Kind = Space | Word

  predicate OfKind(item: Item, kind: Kind, isCjk: string -> bool) {
    item.Grapheme? ==> !BreaksAnywhere(item, isCjk) && (IsSpaceGrapheme(item) <==> kind == Space)
  }

  ghost predicate AllOfKind(token: Line, kind: Kind, isCjk: string -> bool) {
    forall i :: 0 <= i < |token| ==> OfKind(token[i], kind, isCjk)
  }

  ghost predicate AllBreakAnywhere(token: Line, isCjk: string -> bool) {
    forall i :: 0 <= i < |token| && token[i].Grapheme? ==> BreaksAnywhere(token[i], isCjk)
  }

  /** A token that ends with a grapheme. */
  ghost predicate WholeToken(token: Line, isCjk: string -> bool) {
    token != [] && token[|token| - 1].Grapheme? && OneToken(token, isCjk)
  }

  /** Tokens cut where neighbours belong apart. */
  ghost predicate Cut(tokens: seq<Line>, isCjk: string -> bool) {
    && (forall k :: 0 <= k < |tokens| ==> WholeToken(tokens[k], isCjk))
    && (forall k :: 0 < k < |tokens| ==> Separate(tokens[k - 1], tokens[k], isCjk))
  }

  lemma CutSnoc(tokens: seq<Line>, token: Line, isCjk: string -> bool)
    requires Cut(tokens, isCjk) && WholeToken(token, isCjk)
    requires tokens != [] ==> Separate(tokens[|tokens| - 1], token, isCjk)
    ensures Cut(tokens + [token], isCjk)
  {
    hide Separate, WholeToken;
  }

  /** Tokens cut off so far and one under way. */
  ghost predicate Cutting(tokens: seq<Line>, current: Line, kind: Kind, isCjk: string -> bool) {
    && Cut(tokens, isCjk)
    && (current != [] ==>
          WholeToken(current, isCjk) && AllOfKind(current, kind, isCjk)
          && (tokens != [] ==> Separate(tokens[|tokens| - 1], current, isCjk)))
    && (current == [] && tokens != [] ==> AllBreakAnywhere(tokens[|tokens| - 1], isCjk))
  }

  /** A grapheme that breaks anywhere is a token of its own. */
  lemma CutAlone(tokens: seq<Line>, current: Line, kind: Kind, pending: Line, item: Item, isCjk: string -> bool)
    requires Cutting(tokens, current, kind, isCjk) && BreaksAnywhere(item, isCjk)
    requires forall i :: 0 <= i < |pending| ==> pending[i].Code?
    ensures var done := if current == [] then tokens else tokens + [current];
      Cutting(done + [pending + [item]], [], Word, isCjk)
  {
    hide Separate, WholeToken, AllOfKind, AllBreakAnywhere, Cut;
    var done := if current == [] then tokens else tokens + [current];
    AloneApart(pending, item, isCjk);
    if current != [] {
      CutSnoc(tokens, current, isCjk);
    }
    CutSnoc(done, pending + [item], isCjk);
  }

  lemma AloneApart(pending: Line, item: Item, isCjk: string -> bool)
    requires BreaksAnywhere(item, isCjk)
    requires forall i :: 0 <= i < |pending| ==> pending[i].Code?
    ensures WholeToken(pending + [item], isCjk) && AllBreakAnywhere(pending + [item], isCjk)
    ensures forall a :: Separate(a, pending + [item], isCjk)
  {
    assert forall i :: 0 <= i < |pending| ==> (pending + [item])[i] == pending[i];
  }

  /** Another grapheme of the same kind. */
  lemma CutLater(tokens: seq<Line>, current: Line, kind: Kind, pending: Line, item: Item, isCjk: string -> bool)
    requires Cutting(tokens, current, kind, isCjk) && item.Grapheme? && OfKind(item, kind, isCjk) && current != []
    requires forall i :: 0 <= i < |pending| ==> pending[i].Code?
    ensures Cutting(tokens, current + pending + [item], kind, isCjk)
  {
    var grown := current + pending + [item];
    assert forall i :: 0 <= i < |current| ==> grown[i] == current[i];
    assert forall i :: 0 <= i < |pending| ==> grown[|current| + i] == pending[i];
    assert forall i :: 0 <= i < |grown| && grown[i].Grapheme? ==>
             grown[i] == item || (i < |current| && grown[i] == current[i]);
    assert AllOfKind(grown, kind, isCjk);
    assert WholeToken(grown, isCjk);
    if tokens != [] {
      var last := tokens[|tokens| - 1];
      var m := |current| - 1;
      forall i, j | 0 <= i < |last| && 0 <= j < |grown| && last[i].Grapheme? && grown[j].Grapheme?
        ensures Apart(last[i], grown[j], isCjk)
      {
        assert Apart(last[i], current[m], isCjk);
      }
    }
  }

  /** A grapheme of the other kind, or the first after one that breaks anywhere. */
  lemma CutHere(tokens: seq<Line>, current: Line, kind: Kind, pending: Line, item: Item, kind': Kind,
                isCjk: string -> bool)
    requires Cutting(tokens, current, kind, isCjk) && item.Grapheme? && OfKind(item, kind', isCjk)
    requires current != [] ==> kind != kind'
    requires forall i :: 0 <= i < |pending| ==> pending[i].Code?
    ensures Cutting(if current == [] then tokens else tokens + [current], pending + [item], kind', isCjk)
  {
    hide Separate, WholeToken, AllOfKind, OfKind, AllBreakAnywhere, Cut;
    FirstOfToken(pending, item, kind', isCjk);
    if current != [] {
      CutSnoc(tokens, current, isCjk);
      KindsApart(current, kind, pending + [item], kind', isCjk);
    } else if tokens != [] {
      LoneApart(tokens[|tokens| - 1], pending + [item], isCjk);
    }
  }

  lemma FirstOfToken(pending: Line, item: Item, kind: Kind, isCjk: string -> bool)
    requires item.Grapheme? && OfKind(item, kind, isCjk)
    requires forall i :: 0 <= i < |pending| ==> pending[i].Code?
    ensures WholeToken(pending + [item], isCjk) && AllOfKind(pending + [item], kind, isCjk)
  {
    assert forall i :: 0 <= i < |pending| ==> (pending + [item])[i] == pending[i];
  }

  lemma KindsApart(a: Line, kind: Kind, b: Line, kind': Kind, isCjk: string -> bool)
    requires AllOfKind(a, kind, isCjk) && AllOfKind(b, kind', isCjk) && kind != kind'
    ensures Separate(a, b, isCjk)
  {
  }

  lemma LoneApart(a: Line, b: Line, isCjk: string -> bool)
    requires AllBreakAnywhere(a, isCjk)
    ensures Separate(a, b, isCjk)
  {
  }

  /** Where the remaining codes go: to the last token. */
  function Attached(tokens: seq<Line>, current: Line, pending: Line): seq<Line> {
    if current != [] then tokens + [current + pending]
    else if pending == [] then tokens
    else if tokens == [] then [pending]
    else tokens[|tokens| - 1 := tokens[|tokens| - 1] + pending]
  }

  lemma CutsAll(text: Line, tokens: seq<Line>, current: Line, kind: Kind, pending: Line, isCjk: string -> bool)
    requires Cutting(tokens, current, kind, isCjk) && Flatten(tokens) + current + pending == text
    requires forall i :: 0 <= i < |pending| ==> pending[i].Code?
    ensures HasGrapheme(text) && Flatten(Attached(tokens, current, pending)) == text ==>
              Tokenized(Attached(tokens, current, pending), text, isCjk)
  {
    hide Cutting, Tokenized;
    if current != [] || tokens != [] {
      CutEnds(text, tokens, current, kind, pending, isCjk);
      var all := if current == [] then tokens else tokens + [current];
      assert all[|all| - 1] + [] == all[|all| - 1];
      assert all[|all| - 1 := all[|all| - 1] + pending] == Attached(tokens, current, pending);
    } else {
      assert text == pending;
    }
  }

  /** Codes at the end of a token change nothing in where it is cut. */
  lemma CodesChangeNoCut(token: Line, codes: Line, isCjk: string -> bool)
    requires forall i :: 0 <= i < |codes| ==> codes[i].Code?
    ensures OneToken(token, isCjk) ==> OneToken(token + codes, isCjk)
    ensures forall a :: Separate(a, token, isCjk) ==> Separate(a, token + codes, isCjk)
    ensures HasGrapheme(token) ==> HasGrapheme(token + codes)
  {
    var all := token + codes;
    assert forall i :: 0 <= i < |token| ==> all[i] == token[i];
    assert forall i :: 0 <= i < |codes| ==> all[|token| + i] == codes[i];
    assert forall i :: 0 <= i < |all| && all[i].Grapheme? ==> i < |token| && all[i] == token[i];
  }

  lemma NoTokens()
    ensures Flatten([]) == []
  {
  }

  lemma CutStarts(isCjk: string -> bool)
    ensures Cutting([], [], Word, isCjk)
  {
  }

  lemma NextCut(tokens: seq<Line>, current: Line, kind: Kind, pending: Line, item: Item, kind': Kind,
                isCjk: string -> bool)
    requires Cutting(tokens, current, kind, isCjk) && item.Grapheme? && OfKind(item, kind', isCjk)
    requires forall i :: 0 <= i < |pending| ==> pending[i].Code?
    ensures if current != [] && kind != kind' then Cutting(tokens + [current], [] + pending + [item], kind', isCjk)
            else Cutting(tokens, current + pending + [item], kind', isCjk)
  {
    hide Cutting, OfKind;
    assert [] + pending + [item] == pending + [item];
    if current != [] && kind == kind' {
      CutLater(tokens, current, kind, pending, item, isCjk);
    } else {
      CutHere(tokens, current, kind, pending, item, kind', isCjk);
    }
  }

  lemma CutEnds(text: Line, tokens: seq<Line>, current: Line, kind: Kind, codes: Line, isCjk: string -> bool)
    requires Cutting(tokens, current, kind, isCjk) && (current != [] || tokens != [])
    requires forall i :: 0 <= i < |codes| ==> codes[i].Code?
    ensures var all := if current == [] then tokens else tokens + [current];
      var r := all[|all| - 1 := all[|all| - 1] + codes];
      Flatten(r) == text ==> Tokenized(r, text, isCjk)
  {
    hide Separate, OneToken, HasGrapheme;
    var all := if current == [] then tokens else tokens + [current];
    forall k | 0 <= k < |all|
      ensures HasGrapheme(all[k])
    {
      EndHasGrapheme(all[k]);
    }
    CodesChangeNoCut(all[|all| - 1], codes, isCjk);
  }

  lemma EndHasGrapheme(token: Line)
    requires token != [] && token[|token| - 1].Grapheme?
    ensures HasGrapheme(token)
  {
  }

  lemma HasInkConcat(a: Line, b: Line)
    ensures HasInk(a + b) <==> HasInk(a) || HasInk(b)
    ensures HasGrapheme(a + b) <==> HasGrapheme(a) || HasGrapheme(b)
  {
    forall i | 0 <= i < |a| ensures (a + b)[i] == a[i] {}
    forall i | 0 <= i < |b| ensures (a + b)[|a| + i] == b[i] {}
  }

  /** With space as the only blank, every second token has ink. */
  lemma TokensAlternate(tokens: seq<Line>, line: Line, isCjk: string -> bool)
    requires Tokenized(tokens, line, isCjk) && OnlySpaces(line)
    ensures Alternating(tokens)
  {
    forall k | 0 < k < |tokens|
      ensures HasInk(tokens[k - 1]) || HasInk(tokens[k])
    {
      var i :| 0 <= i < |tokens[k - 1]| && tokens[k - 1][i].Grapheme?;
      var j :| 0 <= j < |tokens[k]| && tokens[k][j].Grapheme?;
      TokenInside(tokens, k - 1);
      TokenInside(tokens, k);
      assert Apart(tokens[k - 1][i], tokens[k][j], isCjk);
      assert tokens[k - 1][i] in line && tokens[k][j] in line;
    }
  }

  lemma {:induction false} TokenInside(tokens: seq<Line>, k: int)
    requires 0 <= k < |tokens|
    ensures forall item :: item in tokens[k] ==> item in Flatten(tokens)
    decreases k
  {
    if k > 0 {
      TokenInside(tokens[1..], k - 1);
    }
  }

  /** Splits a line at spaces and around graphemes that may break anywhere. Nothing is lost. */
  method SplitIntoTokensWithAnsi(text: Line, isCjk: string -> bool) returns (tokens: seq<Line>)
    ensures Flatten(tokens) == text
    ensures HasGrapheme(text) ==> Tokenized(tokens, text, isCjk)
  {
    hide HasGrapheme, Cutting, Tokenized, Attached, Flatten;
    tokens := [];
    var current: Line, pendingAnsi: Line := [], [];
    var currentKind := Word;
    CutStarts(isCjk);
    NoTokens();
    for i := 0 to |text|
      invariant Flatten(tokens) + current + pendingAnsi == text[..i]
      invariant forall k :: 0 <= k < |pendingAnsi| ==> pendingAnsi[k].Code?
      invariant Cutting(tokens, current, currentKind, isCjk)
    {
      assert text[..i + 1] == text[..i] + [text[i]];
      if text[i].Code? {
        pendingAnsi := pendingAnsi + [text[i]];
        continue;
      }
      var segmentIsSpace := text[i].text == " ";
      if !segmentIsSpace && isCjk(text[i].text) {
        CutAlone(tokens, current, currentKind, pendingAnsi, text[i], isCjk);
        if current != [] {
          FlattenSnoc(tokens, current);
          tokens := tokens + [current];
          current := [];
        }
        FlattenSnoc(tokens, pendingAnsi + [text[i]]);
        tokens := tokens + [pendingAnsi + [text[i]]];
        pendingAnsi := [];
        currentKind := Word;
        continue;
      }
      var segmentKind := if segmentIsSpace then Space else Word;
      NextCut(tokens, current, currentKind, pendingAnsi, text[i], segmentKind, isCjk);
      if current != [] && currentKind != segmentKind {
        FlattenSnoc(tokens, current);
        tokens := tokens + [current];
        current := [];
      }
      current := current + pendingAnsi + [text[i]];
      pendingAnsi := [];
      currentKind := segmentKind;
    }
    assert text[..|text|] == text;
    CutsAll(text, tokens, current, currentKind, pendingAnsi, isCjk);
    tokens := FinishTokens(text, tokens, current, pendingAnsi);
  }

  /** The remaining codes go to the last token. */
  method FinishTokens(ghost text: Line, tokens: seq<Line>, current: Line, pendingAnsi: Line) returns (r: seq<Line>)
    requires Flatten(tokens) + current + pendingAnsi == text
    ensures Flatten(r) == text
    ensures r == Attached(tokens, current, pendingAnsi)
  {
    hide Flatten;
    assert pendingAnsi == [] ==> current + pendingAnsi == current;
    assert current == [] ==> current + pendingAnsi == pendingAnsi;
    var last := current;
    if pendingAnsi != [] {
      if current != [] || tokens == [] {
        last := current + pendingAnsi;
      } else {
        var init, end := tokens[..|tokens| - 1], tokens[|tokens| - 1];
        assert tokens == init + [end];
        FlattenSnoc(init, end);
        FlattenSnoc(init, end + pendingAnsi);
        assert init + [end + pendingAnsi] == tokens[|tokens| - 1 := end + pendingAnsi];
        return tokens[|tokens| - 1 := end + pendingAnsi];
      }
    }
    r := tokens;
    if last != [] {
      FlattenSnoc(tokens, last);
      r := tokens + [last];
    }
  }
}
