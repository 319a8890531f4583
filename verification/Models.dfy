/** Overlays of a provider's data: request headers, the model catalog, and the price of a request. */
module Models {
  import opened Text

  // ----- headers -----

  /** A header object, in the order its names were added. A null value asks for the header to be left out. */
  datatype Header = Header(name: string, value: Option<string>)

  type Headers = seq<Header>

  function Names(h: Headers): set<string> {
    set i | 0 <= i < |h| :: Lower(h[i].name)
  }

  /** The headers whose case-folded name is not in `names`. */
  function Without(h: Headers, names: set<string>): Headers {
    if h == [] then []
    else
      var rest, last := Without(h[..|h| - 1], names), h[|h| - 1];
      if Lower(last.name) in names then rest else rest + [last]
  }

  function Put(h: Headers, header: Header): Headers {
    Without(h, {Lower(header.name)}) + [header]
  }

  function Merge(base: Headers, override: Headers): Headers {
    if override == [] then base
    else Put(Merge(base, override[..|override| - 1]), override[|override| - 1])
  }

  /** `mergeHeaders` */
  method MergeHeaders(base: Option<Headers>, override: Option<Headers>) returns (merged: Option<Headers>)
    ensures merged.None? <==> base.None? && override.None?
    ensures merged.Some? ==> merged.value == Merge(OrEmpty(base), OrEmpty(override))
  {
    if base.None? && override.None? {
      return None;
    }
    var result, entries := OrEmpty(base), OrEmpty(override);
    for k := 0 to |entries|
      invariant result == Merge(OrEmpty(base), entries[..k])
    {
      result := DeleteName(result, Lower(entries[k].name));
      result := result + [entries[k]];
      assert entries[..k + 1][..k] == entries[..k];
    }
    assert entries[..|entries|] == entries;
    return Some(result);
  }

  function OrEmpty(h: Option<Headers>): Headers {
    if h.None? then [] else h.value
  }

  method DeleteName(h: Headers, lowerName: string) returns (r: Headers)
    ensures r == Without(h, {lowerName})
  {
    r := [];
    for i := 0 to |h|
      invariant r == Without(h[..i], {lowerName})
    {
      if Lower(h[i].name) != lowerName {
        r := r + [h[i]];
      }
      assert h[..i + 1][..i] == h[..i];
    }
    assert h[..|h|] == h;
  }

  /** No two names are equal ignoring case. */
  predicate Folded(h: Headers) {
    forall i, j :: 0 <= i < j < |h| ==> Lower(h[i].name) != Lower(h[j].name)
  }

  /** The last value given for a case-folded name. */
  function Lookup(h: Headers, name: string): Option<Option<string>> {
    if h == [] then None
    else if Lower(h[|h| - 1].name) == name then Some(h[|h| - 1].value)
    else Lookup(h[..|h| - 1], name)
  }

  lemma {:induction false} LookupNames(h: Headers, name: string)
    ensures Lookup(h, name).Some? <==> name in Names(h)
  {
    if h != [] {
      var last := h[|h| - 1];
      LookupNames(h[..|h| - 1], name);
      NamesSnoc(h[..|h| - 1], last);
      assert h == h[..|h| - 1] + [last];
    }
  }

  lemma NamesSnoc(h: Headers, e: Header)
    ensures Names(h + [e]) == Names(h) + {Lower(e.name)}
  {
    var all := h + [e];
    assert all[|h|] == e;
    assert forall i :: 0 <= i < |h| ==> all[i] == h[i];
    forall n | n in Names(h)
      ensures n in Names(all)
    {
      var i :| 0 <= i < |h| && Lower(h[i].name) == n;
      assert Lower(all[i].name) == n;
    }
    assert Lower(all[|h|].name) in Names(all);
  }

  lemma {:induction false} WithoutLooksUp(h: Headers, names: set<string>, name: string)
    ensures Lookup(Without(h, names), name) == if name in names then None else Lookup(h, name)
  {
    if h != [] {
      var before, last := h[..|h| - 1], h[|h| - 1];
      WithoutLooksUp(before, names, name);
      if Lower(last.name) !in names {
        assert Without(h, names)[..|Without(before, names)|] == Without(before, names);
      }
    }
  }

  /** Merging is overriding on case-folded names: a name the override knows has its value there. */
  lemma {:induction false} MergeOverrides(base: Headers, override: Headers, name: string)
    ensures Lookup(Merge(base, override), name) ==
            if Lookup(override, name).Some? then Lookup(override, name) else Lookup(base, name)
  {
    if override != [] {
      var before, last := override[..|override| - 1], override[|override| - 1];
      var merged := Merge(base, before);
      MergeOverrides(base, before, name);
      WithoutLooksUp(merged, {Lower(last.name)}, name);
      assert Put(merged, last)[..|Put(merged, last)| - 1] == Without(merged, {Lower(last.name)});
    }
  }

  lemma {:induction false} WithoutStaysFolded(h: Headers, names: set<string>)
    requires Folded(h)
    ensures Folded(Without(h, names)) && Names(Without(h, names)) == Names(h) - names
  {
    if h != [] {
      var before, last := h[..|h| - 1], h[|h| - 1];
      WithoutStaysFolded(before, names);
      NamesSnoc(before, last);
      assert h == before + [last];
      if Lower(last.name) !in names {
        NamesSnoc(Without(before, names), last);
        assert Lower(last.name) !in Names(before);
        FoldedSnoc(Without(before, names), last);
      }
    }
  }

  lemma FoldedSnoc(h: Headers, e: Header)
    requires Folded(h) && Lower(e.name) !in Names(h)
    ensures Folded(h + [e])
  {
    assert forall i :: 0 <= i < |h| ==> Lower(h[i].name) in Names(h);
  }

  /** Names stay unique ignoring case when the base's are, whatever the override's are. */
  lemma {:induction false} MergeStaysFolded(base: Headers, override: Headers)
    requires Folded(base)
    ensures Folded(Merge(base, override))
  {
    if override != [] {
      var before, last := override[..|override| - 1], override[|override| - 1];
      MergeStaysFolded(base, before);
      WithoutStaysFolded(Merge(base, before), {Lower(last.name)});
      FoldedSnoc(Without(Merge(base, before), {Lower(last.name)}), last);
    }
  }

  // ----- merging is associative, order of names included -----

  lemma WithoutSnoc(h: Headers, e: Header, names: set<string>)
    ensures Without(h + [e], names) == if Lower(e.name) in names then Without(h, names) else Without(h, names) + [e]
  {
    assert (h + [e])[..|h|] == h;
  }

  lemma {:induction false} WithoutConcat(a: Headers, b: Headers, names: set<string>)
    ensures Without(a + b, names) == Without(a, names) + Without(b, names)
    decreases |b|
  {
    if b == [] {
      assert a + b == a;
    } else {
      assert (a + b)[..|a + b| - 1] == a + b[..|b| - 1];
      WithoutConcat(a, b[..|b| - 1], names);
    }
  }

  lemma {:induction false} WithoutTwice(h: Headers, s: set<string>, t: set<string>)
    ensures Without(Without(h, s), t) == Without(h, s + t)
  {
    if h != [] {
      var before, last := h[..|h| - 1], h[|h| - 1];
      WithoutTwice(before, s, t);
      WithoutSnoc(Without(before, s), last, t);
    }
  }

  lemma MergeSnoc(a: Headers, b: Headers, e: Header)
    ensures Merge(a, b + [e]) == Put(Merge(a, b), e)
  {
    assert (b + [e])[..|b|] == b;
  }

  lemma {:induction false} MergeConcat(a: Headers, b: Headers, c: Headers)
    ensures Merge(a, b + c) == Merge(Merge(a, b), c)
    decreases |c|
  {
    if c == [] {
      assert b + c == b;
    } else {
      assert (b + c)[..|b + c| - 1] == b + c[..|c| - 1];
      MergeConcat(a, b, c[..|c| - 1]);
    }
  }

  /** What a merge keeps of the base, followed by the override merged with itself. */
  lemma {:induction false} MergeSplits(a: Headers, b: Headers)
    ensures Merge(a, b) == Without(a, Names(b)) + Merge([], b)
  {
    assert Names([]) == {};
    hide Without, Names, Lower;
    if b == [] {
      WithoutNothing(a);
    } else {
      var before, last := b[..|b| - 1], b[|b| - 1];
      assert b == before + [last];
      MergeSplits(a, before);
      NamesSnoc(before, last);
      PutAfter(a, Names(before), Merge([], before), last);
    }
  }

  lemma PutAfter(a: Headers, names: set<string>, own: Headers, e: Header)
    ensures Put(Without(a, names) + own, e) == Without(a, names + {Lower(e.name)}) + Put(own, e)
  {
    hide Without, Lower;
    WithoutConcat(Without(a, names), own, {Lower(e.name)});
    WithoutTwice(a, names, {Lower(e.name)});
  }

  lemma {:induction false} WithoutNothing(h: Headers)
    ensures Without(h, {}) == h
  {
    if h != [] {
      WithoutNothing(h[..|h| - 1]);
    }
  }

  /** Dropping names and merging with itself commute. */
  lemma {:induction false} SelfMergeWithout(b: Headers, names: set<string>)
    ensures Merge([], Without(b, names)) == Without(Merge([], b), names)
  {
    assert Without([], names) == [];
    hide Without, Lower, Put;
    if b != [] {
      var before, last := b[..|b| - 1], b[|b| - 1];
      assert b == before + [last];
      SelfMergeWithout(before, names);
      WithoutSnoc(before, last, names);
      WithoutPut(Merge([], before), last, names);
      MergeSnoc([], Without(before, names), last);
    }
  }

  lemma WithoutPut(h: Headers, e: Header, names: set<string>)
    ensures Without(Put(h, e), names) == if Lower(e.name) in names then Without(h, names) else Put(Without(h, names), e)
  {
    hide Without, Lower;
    var name := Lower(e.name);
    WithoutSnoc(Without(h, {name}), e, names);
    WithoutTwice(h, {name}, names);
    WithoutTwice(h, names, {name});
    assert {name} + names == names + {name};
    if name in names {
      assert names + {name} == names;
    }
  }

  lemma {:induction false} SelfMergeNames(b: Headers)
    ensures Names(Merge([], b)) == Names(b) && Folded(Merge([], b))
  {
    assert Names(Merge([], [])) == {};
    MergeStaysFolded([], b);
    hide Without, Names, Lower, Folded;
    if b != [] {
      var before, last := b[..|b| - 1], b[|b| - 1];
      assert b == before + [last];
      SelfMergeNames(before);
      WithoutStaysFolded(Merge([], before), {Lower(last.name)});
      NamesSnoc(Without(Merge([], before), {Lower(last.name)}), last);
      NamesSnoc(before, last);
    } else {
      assert b == [];
    }
  }

  lemma {:induction false} SelfMergeFixed(h: Headers)
    requires Folded(h)
    ensures Merge([], h) == h
  {
    if h != [] {
      var before, last := h[..|h| - 1], h[|h| - 1];
      SelfMergeFixed(before);
      assert Lower(last.name) !in Names(before);
      WithoutMissing(before, {Lower(last.name)});
    }
  }

  lemma {:induction false} WithoutMissing(h: Headers, names: set<string>)
    requires names !! Names(h)
    ensures Without(h, names) == h
  {
    if h != [] {
      var before, last := h[..|h| - 1], h[|h| - 1];
      NamesSnoc(before, last);
      assert h == before + [last];
      WithoutMissing(before, names);
    }
  }

  /** Layers may be merged in either grouping; for any headers, names repeated or not. */
  lemma MergeAssociative(a: Headers, b: Headers, c: Headers)
    ensures Merge(Merge(a, b), c) == Merge(a, Merge(b, c))
  {
    var nb, nc := Names(b), Names(c);
    var kept := Without(b, nc);
    var own := Merge([], c);
    calc {
      Merge(Merge(a, b), c);
      { MergeSplits(Merge(a, b), c); MergeSplits(a, b); WithoutConcat(Without(a, nb), Merge([], b), nc); }
      Without(Without(a, nb), nc) + Without(Merge([], b), nc) + own;
      { WithoutTwice(a, nb, nc); SelfMergeWithout(b, nc); }
      Without(a, nb + nc) + Merge([], kept) + own;
    }
    KeptNames(b, nc);
    calc {
      Merge(a, Merge(b, c));
      { MergeSplits(b, c); MergeConcat(a, kept, own); }
      Merge(Merge(a, kept), own);
      { SelfMergeNames(c); SelfMergeFixed(own); MergeSplits(Merge(a, kept), own); MergeSplits(a, kept);
        WithoutConcat(Without(a, nb - nc), Merge([], kept), nc); }
      Without(Without(a, nb - nc), nc) + Without(Merge([], kept), nc) + own;
      { WithoutTwice(a, nb - nc, nc); SelfMergeNames(kept); WithoutMissing(Merge([], kept), nc);
        assert nb - nc + nc == nb + nc; }
      Without(a, nb + nc) + Merge([], kept) + own;
    }
  }

  lemma {:induction false} KeptNames(b: Headers, names: set<string>)
    ensures Names(Without(b, names)) == Names(b) - names
  {
    if b != [] {
      var before, last := b[..|b| - 1], b[|b| - 1];
      KeptNames(before, names);
      NamesSnoc(before, last);
      assert b == before + [last];
      NamesSnoc(Without(before, names), last);
    }
  }

  /** The headers of a request (`getAuth`, then `applyAuth`): the provider's, overridden by the model's, overridden
      by the request options', and last the caller's transformation. */
  method RequestHeaders(provider: Option<Headers>, model: Option<Headers>, options: Option<Headers>,
                        transform: Option<Headers -> Headers>)
    returns (headers: Option<Headers>)
    ensures headers.Some? ==>
              headers.value == (if transform.Some? then transform.value(Layered(provider, model, options))
                                else Layered(provider, model, options))
    ensures headers.None? <==> provider.None? && model.None? && options.None? && transform.None?
  {
    headers := provider;
    if model.Some? {
      headers := MergeHeaders(headers, model);
    }
    headers := MergeHeaders(headers, options);
    if transform.Some? {
      headers := Some(transform.value(OrEmpty(headers)));
    }
  }

  function Layered(provider: Option<Headers>, model: Option<Headers>, options: Option<Headers>): Headers {
    Merge(Merge(OrEmpty(provider), OrEmpty(model)), OrEmpty(options))
  }

  function First<T>(a: Option<T>, b: Option<T>): Option<T> {
    if a.Some? then a else b
  }

  /** Options win over the model, the model over the provider, name by name and ignoring case. */
  lemma LayersOverride(provider: Option<Headers>, model: Option<Headers>, options: Option<Headers>, name: string)
    ensures Lookup(Layered(provider, model, options), name) ==
            First(Lookup(OrEmpty(options), name), First(Lookup(OrEmpty(model), name), Lookup(OrEmpty(provider), name)))
    ensures Folded(OrEmpty(provider)) ==> Folded(Layered(provider, model, options))
  {
    var inner := Merge(OrEmpty(provider), OrEmpty(model));
    MergeOverrides(inner, OrEmpty(options), name);
    MergeOverrides(OrEmpty(provider), OrEmpty(model), name);
    if Folded(OrEmpty(provider)) {
      MergeStaysFolded(OrEmpty(provider), OrEmpty(model));
      MergeStaysFolded(inner, OrEmpty(options));
    }
  }

  // ----- the model catalog -----

  /** A catalog entry; everything but the id is kept uninterpreted. */
  datatype Model = Model(id: string, data: string)

  predicate UniqueIds(models: seq<Model>) {
    forall i, j :: 0 <= i < j < |models| ==> models[i].id != models[j].id
  }

  function Find(models: seq<Model>, id: string): (r: Option<Model>)
    ensures r.Some? ==> r.value in models && r.value.id == id
    ensures r.None? <==> forall m <- models :: m.id != id
  {
    if models == [] then None
    else if models[0].id == id then Some(models[0])
    else Find(models[1..], id)
  }

  /** The last entry for an id. */
  function Latest(models: seq<Model>, id: string): (r: Option<Model>)
    ensures r.Some? ==> r.value in models && r.value.id == id
    ensures r.None? <==> forall m <- models :: m.id != id
  {
    if models == [] then None
    else if models[|models| - 1].id == id then Some(models[|models| - 1])
    else Latest(models[..|models| - 1], id)
  }

  predicate FirstAt(models: seq<Model>, i: nat)
    requires i < |models|
  {
    forall j :: 0 <= j < i ==> models[j].id != models[i].id
  }

  lemma {:induction false} FindIs(models: seq<Model>, k: nat)
    requires k < |models| && FirstAt(models, k)
    ensures Find(models, models[k].id) == Some(models[k])
  {
    if k > 0 {
      assert models[0].id != models[k].id;
      assert forall j :: 0 <= j < k - 1 ==> models[1..][j] == models[j + 1];
      FindIs(models[1..], k - 1);
    }
  }

  lemma FirstOf(models: seq<Model>, i: nat) returns (k: nat)
    requires i < |models|
    ensures k <= i && models[k].id == models[i].id && FirstAt(models, k)
  {
    k := i;
    if j :| 0 <= j < i && models[j].id == models[i].id {
      k := FirstOf(models, j);
    }
  }

  /** The baseline's ids stay where they are and new ids follow; the first entry of an id is the latest dynamic
      one, if there is one, and everything else is the baseline's. */
  ghost predicate Overlaid(merged: seq<Model>, baseline: seq<Model>, dynamic: seq<Model>) {
    && |baseline| <= |merged|
    && (forall i :: 0 <= i < |baseline| ==> merged[i].id == baseline[i].id)
    && (forall i :: |baseline| <= i < |merged| ==> FirstAt(merged, i) && Latest(dynamic, merged[i].id).Some?)
    && (forall i :: 0 <= i < |merged| ==> EntryIs(merged, baseline, dynamic, i))
    && (forall m <- dynamic :: Find(merged, m.id).Some?)
  }

  method FindIndex(models: seq<Model>, id: string) returns (index: int)
    ensures -1 <= index < |models|
    ensures index == -1 ==> forall m <- models :: m.id != id
    ensures index >= 0 ==> models[index].id == id && forall i :: 0 <= i < index ==> models[i].id != id
  {
    for i := 0 to |models|
      invariant forall j :: 0 <= j < i ==> models[j].id != id
    {
      if models[i].id == id {
        return i;
      }
    }
    return -1;
  }

  /** `currentModels` */
  method CurrentModels(baseline: seq<Model>, dynamic: seq<Model>) returns (merged: seq<Model>)
    ensures Overlaid(merged, baseline, dynamic)
  {
    merged := baseline;
    for k := 0 to |dynamic|
      invariant Overlaid(merged, baseline, dynamic[..k])
    {
      var index := FindIndex(merged, dynamic[k].id);
      ghost var before := merged;
      if index >= 0 {
        merged := merged[index := dynamic[k]];
      } else {
        merged := merged + [dynamic[k]];
      }
      OverlayStep(before, merged, baseline, dynamic[..k], dynamic[k], index);
      assert dynamic[..k + 1] == dynamic[..k] + [dynamic[k]];
    }
    assert dynamic[..|dynamic|] == dynamic;
  }

  lemma LatestSnoc(dynamic: seq<Model>, m: Model, id: string)
    ensures Latest(dynamic + [m], id) == if id == m.id then Some(m) else Latest(dynamic, id)
  {
    assert (dynamic + [m])[..|dynamic|] == dynamic;
  }

  predicate SameIds(a: seq<Model>, b: seq<Model>) {
    |a| <= |b| && forall i :: 0 <= i < |a| ==> a[i].id == b[i].id
  }

  lemma SameFirsts(a: seq<Model>, b: seq<Model>, i: nat)
    requires SameIds(a, b) && i < |a|
    ensures FirstAt(a, i) <==> FirstAt(b, i)
  {
  }

  lemma Found(models: seq<Model>, i: nat, id: string)
    requires i < |models| && models[i].id == id
    ensures Find(models, id).Some?
  {
    assert models[i] in models;
  }

  /** The entry an overlay has at place i. */
  ghost predicate EntryIs(merged: seq<Model>, baseline: seq<Model>, dynamic: seq<Model>, i: nat)
    requires i < |merged|
  {
    if FirstAt(merged, i) && Latest(dynamic, merged[i].id).Some?
    then merged[i] == Latest(dynamic, merged[i].id).value
    else i < |baseline| && merged[i] == baseline[i]
  }

  lemma OverlayStep(before: seq<Model>, after: seq<Model>, baseline: seq<Model>, dynamic: seq<Model>, m: Model,
                    index: int)
    requires Overlaid(before, baseline, dynamic)
    requires -1 <= index < |before|
    requires index == -1 ==> (forall e <- before :: e.id != m.id) && after == before + [m]
    requires index >= 0 ==> before[index].id == m.id && FirstAt(before, index) && after == before[index := m]
    ensures Overlaid(after, baseline, dynamic + [m])
  {
    hide Latest, Find, FirstAt, EntryIs;
    var at := if index >= 0 then index else |before|;
    IsFirst(before, after, m, at);
    forall i | 0 <= i < |after|
      ensures EntryIs(after, baseline, dynamic + [m], i)
      ensures |baseline| <= i ==> FirstAt(after, i) && Latest(dynamic + [m], after[i].id).Some?
    {
      EntryStep(before, after, baseline, dynamic, m, at, i);
    }
    StillFound(before, after, dynamic, m, at);
  }

  lemma IsFirst(before: seq<Model>, after: seq<Model>, m: Model, at: nat)
    requires at <= |before| && after == (if at < |before| then before[at := m] else before + [m])
    requires if at < |before| then before[at].id == m.id && FirstAt(before, at) else forall e <- before :: e.id != m.id
    ensures SameIds(before, after) && FirstAt(after, at)
  {
    assert forall i :: 0 <= i < |before| ==> before[i] in before;
  }

  lemma EntryStep(before: seq<Model>, after: seq<Model>, baseline: seq<Model>, dynamic: seq<Model>, m: Model, at: nat,
                  i: nat)
    requires i < |after| && at <= |before| && after == (if at < |before| then before[at := m] else before + [m])
    requires SameIds(before, after) && FirstAt(after, at) && |baseline| <= |before|
    requires i < |before| ==> EntryIs(before, baseline, dynamic, i)
    requires |baseline| <= i < |before| ==> FirstAt(before, i) && Latest(dynamic, before[i].id).Some?
    ensures EntryIs(after, baseline, dynamic + [m], i)
    ensures |baseline| <= i ==> FirstAt(after, i) && Latest(dynamic + [m], after[i].id).Some?
  {
    hide Latest;
    LatestSnoc(dynamic, m, after[i].id);
    if i < |before| {
      SameFirsts(before, after, i);
    }
    if i < at {
      assert after[i].id != after[at].id;
    } else if i > at && FirstAt(after, i) {
      assert after[at].id != after[i].id;
    }
  }

  lemma StillFound(before: seq<Model>, after: seq<Model>, dynamic: seq<Model>, m: Model, at: nat)
    requires forall e <- dynamic :: Find(before, e.id).Some?
    requires SameIds(before, after) && at < |after| && after[at] == m
    ensures forall e <- dynamic + [m] :: Find(after, e.id).Some?
  {
    forall e | e in dynamic + [m]
      ensures Find(after, e.id).Some?
    {
      if e.id == m.id {
        Found(after, at, e.id);
      } else {
        assert Find(before, e.id).value in before;
        var i :| 0 <= i < |before| && before[i].id == e.id;
        Found(after, i, e.id);
      }
    }
  }

  lemma OverlayFinds(merged: seq<Model>, baseline: seq<Model>, dynamic: seq<Model>, id: string)
    requires Overlaid(merged, baseline, dynamic)
    ensures Latest(dynamic, id).Some? ==> Find(merged, id).Some?
    ensures Find(baseline, id).Some? ==> Find(merged, id).Some?
  {
    if Latest(dynamic, id).Some? {
      assert Find(merged, Latest(dynamic, id).value.id).Some?;
    }
    if Find(baseline, id).Some? {
      var i :| 0 <= i < |baseline| && baseline[i] == Find(baseline, id).value;
      Found(merged, i, id);
    }
  }

  /** What the overlay means: every id is looked up among the dynamic entries first, latest first, and then in
      the baseline. */
  lemma OverlayLooksUp(merged: seq<Model>, baseline: seq<Model>, dynamic: seq<Model>, id: string)
    requires Overlaid(merged, baseline, dynamic)
    ensures Find(merged, id) == First(Latest(dynamic, id), Find(baseline, id))
  {
    hide Latest, FirstAt;
    OverlayFinds(merged, baseline, dynamic, id);
    if Find(merged, id).Some? {
      var i :| 0 <= i < |merged| && merged[i].id == id;
      var k := FirstOf(merged, i);
      FindIs(merged, k);
      assert EntryIs(merged, baseline, dynamic, k);
      if k < |baseline| {
        SameFirsts(baseline, merged, k);
        FindIs(baseline, k);
      }
    }
  }

  /** Ids are unique in the overlay just when they are in the baseline. */
  lemma OverlayKeepsUnique(merged: seq<Model>, baseline: seq<Model>, dynamic: seq<Model>)
    requires Overlaid(merged, baseline, dynamic)
    ensures UniqueIds(merged) <==> UniqueIds(baseline)
  {
    forall i, j | 0 <= i < j < |merged| && UniqueIds(baseline)
      ensures merged[i].id != merged[j].id
    {
      if j >= |baseline| {
        assert FirstAt(merged, j);
      }
    }
  }

  // ----- the price of a request -----

  datatype Rates = Rates(input: real, output: real, cacheRead: real, cacheWrite: real)

  datatype Tier = Tier(inputTokensAbove: int, rates: Rates)

  datatype Usage = Usage(input: nat, output: nat, cacheRead: nat, cacheWrite: nat, cacheWrite1h: nat)

  datatype Cost = Cost(input: real, output: real, cacheRead: real, cacheWrite: real, total: real)

  function InputTokens(u: Usage): nat {
    u.input + u.cacheRead + u.cacheWrite
  }

  /** A tier applies above its threshold; thresholds below zero never do. */
  predicate Applies(t: Tier, tokens: nat) {
    0 <= t.inputTokensAbove < tokens
  }

  /** The chosen rates: those of the first among the applying tiers with the highest threshold. */
  predicate Chosen(rates: Rates, base: Rates, tiers: seq<Tier>, tokens: nat) {
    if forall t <- tiers :: !Applies(t, tokens) then rates == base
    else exists k :: 0 <= k < |tiers| && IsBest(tiers, tokens, k) && rates == tiers[k].rates
  }

  predicate IsBest(tiers: seq<Tier>, tokens: nat, k: nat)
    requires k < |tiers|
  {
    && Applies(tiers[k], tokens)
    && (forall j :: 0 <= j < |tiers| && Applies(tiers[j], tokens) ==>
          tiers[j].inputTokensAbove <= tiers[k].inputTokensAbove)
    && (forall j :: 0 <= j < k ==> tiers[j].inputTokensAbove != tiers[k].inputTokensAbove)
  }

  /** The tier choice of `calculateCost` */
  method ChooseRates(base: Rates, tiers: seq<Tier>, tokens: nat) returns (rates: Rates)
    ensures Chosen(rates, base, tiers, tokens)
  {
    rates := base;
    var matchedThreshold := -1;
    ghost var best := -1;
    for i := 0 to |tiers|
      invariant -1 <= best < i
      invariant best == -1 ==> rates == base && matchedThreshold == -1
                               && forall j :: 0 <= j < i ==> !Applies(tiers[j], tokens)
      invariant best >= 0 ==> IsBest(tiers[..i], tokens, best)
                              && rates == tiers[best].rates && matchedThreshold == tiers[best].inputTokensAbove
    {
      var tier := tiers[i];
      if tokens > tier.inputTokensAbove && tier.inputTokensAbove > matchedThreshold {
        rates := tier.rates;
        matchedThreshold := tier.inputTokensAbove;
        best := i;
      }
    }
    assert tiers[..|tiers|] == tiers;
  }

  predicate DistinctThresholds(tiers: seq<Tier>) {
    forall i, j :: 0 <= i < j < |tiers| ==> tiers[i].inputTokensAbove != tiers[j].inputTokensAbove
  }

  /** The order in which distinct tiers are listed does not matter. */
  lemma OrderIrrelevant(base: Rates, tiers: seq<Tier>, other: seq<Tier>, tokens: nat, r: Rates, r': Rates)
    requires DistinctThresholds(tiers) && (forall t :: t in tiers <==> t in other)
    requires Chosen(r, base, tiers, tokens) && Chosen(r', base, other, tokens)
    ensures r == r'
  {
    if t :| t in tiers && Applies(t, tokens) {
      assert t in other;
      var k :| 0 <= k < |tiers| && IsBest(tiers, tokens, k) && r == tiers[k].rates;
      var k' :| 0 <= k' < |other| && IsBest(other, tokens, k') && r' == other[k'].rates;
      assert tiers[k] in other && other[k'] in tiers;
      var j :| 0 <= j < |tiers| && tiers[j] == other[k'];
      var j' :| 0 <= j' < |other| && other[j'] == tiers[k];
      assert tiers[j].inputTokensAbove <= tiers[k].inputTokensAbove;
      assert other[j'].inputTokensAbove <= other[k'].inputTokensAbove;
    } else {
      assert forall t <- other :: t in tiers;
    }
  }

  /** The cost at given rates: one-hour cache writes are charged at twice the input rate. */
  function CostAt(rates: Rates, u: Usage): Cost {
    var input := rates.input / 1000000.0 * u.input as real;
    var output := rates.output / 1000000.0 * u.output as real;
    var cacheRead := rates.cacheRead / 1000000.0 * u.cacheRead as real;
    var shortWrite := u.cacheWrite - u.cacheWrite1h;
    var cacheWrite := (rates.cacheWrite * shortWrite as real + rates.input * 2.0 * u.cacheWrite1h as real) / 1000000.0;
    Cost(input, output, cacheRead, cacheWrite, input + output + cacheRead + cacheWrite)
  }

  /** `calculateCost` */
  method CalculateCost(base: Rates, tiers: seq<Tier>, u: Usage) returns (cost: Cost, rates: Rates)
    ensures Chosen(rates, base, tiers, InputTokens(u))
    ensures cost == CostAt(rates, u)
  {
    hide Chosen;
    rates := ChooseRates(base, tiers, u.input + u.cacheRead + u.cacheWrite);
    cost := CostAt(rates, u);
  }

  function Add(u: Usage, v: Usage): Usage {
    Usage(u.input + v.input, u.output + v.output, u.cacheRead + v.cacheRead, u.cacheWrite + v.cacheWrite,
          u.cacheWrite1h + v.cacheWrite1h)
  }

  function AddCosts(c: Cost, d: Cost): Cost {
    Cost(c.input + d.input, c.output + d.output, c.cacheRead + d.cacheRead, c.cacheWrite + d.cacheWrite,
         c.total + d.total)
  }

  /** At the same rates, two requests cost as much as one with their tokens together, item by item. */
  lemma CostAdds(rates: Rates, u: Usage, v: Usage)
    ensures CostAt(rates, Add(u, v)) == AddCosts(CostAt(rates, u), CostAt(rates, v))
  {
    Spread(rates.input / 1000000.0, u.input, v.input);
    Spread(rates.output / 1000000.0, u.output, v.output);
    Spread(rates.cacheRead / 1000000.0, u.cacheRead, v.cacheRead);
    Spread(rates.cacheWrite, u.cacheWrite - u.cacheWrite1h, v.cacheWrite - v.cacheWrite1h);
    Spread(rates.input * 2.0, u.cacheWrite1h, v.cacheWrite1h);
  }

  const MILLION: nat := 1000000

  /** A million tokens of one kind cost that kind's rate and nothing else; written to the cache for an hour they
      cost twice the input rate. With the sums above that fixes every price. */
  lemma PriceOfAMillion(rates: Rates)
    ensures CostAt(rates, Usage(MILLION, 0, 0, 0, 0)) == Cost(rates.input, 0.0, 0.0, 0.0, rates.input)
    ensures CostAt(rates, Usage(0, MILLION, 0, 0, 0)) == Cost(0.0, rates.output, 0.0, 0.0, rates.output)
    ensures CostAt(rates, Usage(0, 0, MILLION, 0, 0)) == Cost(0.0, 0.0, rates.cacheRead, 0.0, rates.cacheRead)
    ensures CostAt(rates, Usage(0, 0, 0, MILLION, 0)) == Cost(0.0, 0.0, 0.0, rates.cacheWrite, rates.cacheWrite)
    ensures CostAt(rates, Usage(0, 0, 0, MILLION, MILLION))
              == Cost(0.0, 0.0, 0.0, 2.0 * rates.input, 2.0 * rates.input)
  {
    assert MILLION as real == 1000000.0;
    PerMillion(rates.input);
    PerMillion(rates.output);
    PerMillion(rates.cacheRead);
    PerMillion(rates.cacheWrite);
    PerMillion(2.0 * rates.input);
  }

  lemma PerMillion(rate: real)
    ensures rate / 1000000.0 * 1000000.0 == rate && rate * 1000000.0 / 1000000.0 == rate
    ensures rate / 1000000.0 * 0.0 == 0.0
  {
  }

  /** A tier's rates are due from the first token above its threshold on. */
  lemma TierStartsAbove(base: Rates, tier: Tier, tokens: nat, rates: Rates)
    requires Chosen(rates, base, [tier], tokens)
    ensures rates == if 0 <= tier.inputTokensAbove && tier.inputTokensAbove + 1 <= tokens then tier.rates else base
  {
    if Applies(tier, tokens) {
      assert [tier][0] == tier && tier in [tier];
    } else {
      assert forall t <- [tier] :: t == tier;
    }
  }

  lemma Spread(rate: real, m: int, n: int)
    ensures rate * (m + n) as real == rate * m as real + rate * n as real
  {
    var x, y := m as real, n as real;
    assert (m + n) as real == x + y;
  }
}
