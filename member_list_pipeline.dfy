/** The stages a SYNC runs after it has walked its items
    (src/stores/GuildMemberListStore.ts:90-126): drop empty buckets, suffix
    each title with its member count, hide a large "offline" bucket, sort each
    bucket by username ignoring case, and flatten into the render list of
    titles and members. Generic in the member type `M`, so the same stages
    serve the store's objects and the specification's item positions. */
module MemberListPipeline {
  import opened Text

  /** A member attached to a bucket, with the reported `index` and the
      username the sort compares ("" when the member has no username). */
  datatype Attached<M> = Attached(member: M, index: int, name: string)

  /** One entry of `listData`: a section title and the members attached to it. */
  datatype Bucket<M> = Bucket(title: string, data: seq<Attached<M>>)

  /** An element of the render list `list`: a section title or a member. */
  datatype Entry<M> = Title(text: string) | Ref(member: M)

  /** A section as the member list view consumes it: a title and its members. */
  datatype Section<M> = Section(title: string, members: seq<M>)

  // ---------------------------------------------------------------- stages

  /** Drops the buckets no member was attached to, keeping the order of the rest. */
  function DropEmpty<M>(bs: seq<Bucket<M>>): seq<Bucket<M>> {
    if |bs| == 0 then []
    else (if |bs[0].data| > 0 then [bs[0]] else []) + DropEmpty(bs[1..])
  }

  /** A bucket's title followed by a dash and its member count in decimal. */
  function CountedTitle(title: string, n: nat): string {
    title + " - " + Decimal(n)
  }

  function AddCount<M>(b: Bucket<M>): Bucket<M> {
    Bucket(CountedTitle(b.title, |b.data|), b.data)
  }

  /** Appends its member count to every bucket's title. */
  function AddCounts<M>(bs: seq<Bucket<M>>): (r: seq<Bucket<M>>)
    ensures |r| == |bs|
    ensures forall i :: 0 <= i < |bs| ==> r[i] == AddCount(bs[i])
  {
    seq(|bs|, i requires 0 <= i < |bs| => AddCount(bs[i]))
  }

  /** The bucket the view must not show: an "offline" title (ignoring case) over 100 or more members. */
  predicate HiddenOffline(title: string, n: nat) {
    StartsWith(Lower(title), "offline") && n >= 100
  }

  /** Removes every bucket the view must not show (see `HiddenOffline`), keeping the order of the rest. */
  function HideOffline<M>(bs: seq<Bucket<M>>): seq<Bucket<M>> {
    if |bs| == 0 then []
    else (if HiddenOffline(bs[0].title, |bs[0].data|) then [] else [bs[0]]) + HideOffline(bs[1..])
  }

  /** The sort comparator returns 1 (`a` goes after `b`): both usernames are
      non-empty and `a`'s lower-cased name is greater. Otherwise it returns -1
      or 0, and `a` may stay in front. */
  predicate SortsAfter<M>(a: Attached<M>, b: Attached<M>) {
    a.name != "" && b.name != "" && LexLess(Lower(b.name), Lower(a.name))
  }

  function InsertByName<M>(x: Attached<M>, s: seq<Attached<M>>): seq<Attached<M>> {
    if |s| == 0 then [x]
    else if SortsAfter(x, s[0]) then [s[0]] + InsertByName(x, s[1..])
    else [x] + s
  }

  /** Orders a bucket by lower-cased username, as an insertion sort driven by the source's comparator. */
  function SortByName<M>(d: seq<Attached<M>>): seq<Attached<M>> {
    if |d| == 0 then [] else InsertByName(d[0], SortByName(d[1..]))
  }

  /** The member objects of a bucket, without their sort keys. */
  function MembersOf<M>(d: seq<Attached<M>>): (r: seq<M>)
    ensures |r| == |d|
    ensures forall i :: 0 <= i < |d| ==> r[i] == d[i].member
  {
    seq(|d|, i requires 0 <= i < |d| => d[i].member)
  }

  function ToSection<M>(b: Bucket<M>): Section<M> {
    Section(b.title, MembersOf(SortByName(b.data)))
  }

  function ToSections<M>(bs: seq<Bucket<M>>): (r: seq<Section<M>>)
    ensures |r| == |bs|
    ensures forall i :: 0 <= i < |bs| ==> r[i] == ToSection(bs[i])
  {
    seq(|bs|, i requires 0 <= i < |bs| => ToSection(bs[i]))
  }

  function AsRefs<M>(ms: seq<M>): (r: seq<Entry<M>>)
    ensures |r| == |ms|
    ensures forall i :: 0 <= i < |ms| ==> r[i] == Ref(ms[i])
  {
    seq(|ms|, i requires 0 <= i < |ms| => Ref(ms[i]))
  }

  /** Lays the sections out one after another, each as its title followed by its members. */
  function Flatten<M>(ss: seq<Section<M>>): (r: seq<Entry<M>>)
    ensures ss == [] <==> r == []
    ensures r != [] ==> r[0] == Title(ss[0].title)
  {
    if |ss| == 0 then [] else [Title(ss[0].title)] + AsRefs(ss[0].members) + Flatten(ss[1..])
  }

  /** The whole post-walk pipeline: what a completed SYNC assigns to `list`. */
  function Render<M>(bs: seq<Bucket<M>>): seq<Entry<M>> {
    Flatten(ToSections(HideOffline(AddCounts(DropEmpty(bs)))))
  }

  // ------------------------------------------------- reference definitions

  /** A bucket that reaches the render list: it has members, and it is not a
      hidden offline bucket once its count is in the title. */
  predicate Survives<M>(b: Bucket<M>) {
    |b.data| > 0 && !HiddenOffline(CountedTitle(b.title, |b.data|), |b.data|)
  }

  /** The surviving buckets, in their original order, titles not yet counted. */
  function Kept<M>(bs: seq<Bucket<M>>): (r: seq<Bucket<M>>)
    ensures |r| <= |bs|
    ensures forall i :: 0 <= i < |r| ==> Survives(r[i])
  {
    if |bs| == 0 then []
    else (if Survives(bs[0]) then [bs[0]] else []) + Kept(bs[1..])
  }

  /** The number of members at the front of a render list. */
  function LeadingRefs<M>(r: seq<Entry<M>>): (n: nat)
    ensures n <= |r|
    ensures forall i :: 0 <= i < n ==> r[i].Ref?
    ensures n < |r| ==> r[n].Title?
  {
    if |r| == 0 || r[0].Title? then 0 else 1 + LeadingRefs(r[1..])
  }

  function RefsOf<M>(r: seq<Entry<M>>): (ms: seq<M>)
    requires forall i :: 0 <= i < |r| ==> r[i].Ref?
    ensures |ms| == |r|
    ensures forall i :: 0 <= i < |r| ==> ms[i] == r[i].member
  {
    seq(|r|, i requires 0 <= i < |r| => r[i].member)
  }

  /** Reads a render list back as sections: each title with the members that
      follow it up to the next title. The view's `{title, data}` form. */
  function Parse<M>(r: seq<Entry<M>>): seq<Section<M>>
    requires r == [] || r[0].Title?
    decreases |r|
  {
    if |r| == 0 then []
    else
      var n := LeadingRefs(r[1..]);
      [Section(r[0].text, RefsOf(r[1..1 + n]))] + Parse(r[1 + n..])
  }

  // ---------------------------------------------------------------- lemmas

  lemma {:induction false} LeadingRefsOfSection<M>(ms: seq<M>, rest: seq<Entry<M>>)
    requires rest == [] || rest[0].Title?
    ensures LeadingRefs(AsRefs(ms) + rest) == |ms|
  {
    if ms != [] {
      assert (AsRefs(ms) + rest)[1..] == AsRefs(ms[1..]) + rest;
      LeadingRefsOfSection(ms[1..], rest);
    } else {
      assert AsRefs(ms) + rest == rest;
    }
  }

  /** Flattening loses nothing: reading the render list back gives the sections. */
  lemma {:induction false} ParseFlatten<M>(ss: seq<Section<M>>)
    ensures Parse(Flatten(ss)) == ss
  {
    if ss != [] {
      var rest := Flatten(ss[1..]);
      assert Flatten(ss) == [Title(ss[0].title)] + AsRefs(ss[0].members) + rest;
      ParseSection(ss[0].title, ss[0].members, rest);
      ParseFlatten(ss[1..]);
      assert ss == [ss[0]] + ss[1..];
    }
  }

  /** A title followed by its members is read back as one section. */
  lemma ParseSection<M>(title: string, ms: seq<M>, rest: seq<Entry<M>>)
    requires rest == [] || rest[0].Title?
    ensures Parse([Title(title)] + AsRefs(ms) + rest) == [Section(title, ms)] + Parse(rest)
  {
    var a := AsRefs(ms);
    var r := [Title(title)] + a + rest;
    EntrySlices(Title(title), a, rest);
    LeadingRefsOfSection(ms, rest);
    assert RefsOf(r[1..1 + |ms|]) == ms by {
      assert RefsOf(a) == ms;
    }
  }

  lemma EntrySlices<M>(t: Entry<M>, a: seq<Entry<M>>, rest: seq<Entry<M>>)
    ensures var r := [t] + a + rest;
      r[0] == t && r[1..] == a + rest && r[1..1 + |a|] == a && r[1 + |a|..] == rest
  {
  }

  lemma {:induction false} HideOfflineConcat<M>(a: seq<Bucket<M>>, b: seq<Bucket<M>>)
    ensures HideOffline(a + b) == HideOffline(a) + HideOffline(b)
  {
    if a != [] {
      assert (a + b)[1..] == a[1..] + b;
      HideOfflineConcat(a[1..], b);
    } else {
      assert a + b == b;
    }
  }

  /** The three filtering and renaming stages amount to one filter by
      `Survives` followed by counting the titles. */
  lemma {:induction false} StagesAreOneFilter<M>(bs: seq<Bucket<M>>)
    ensures HideOffline(AddCounts(DropEmpty(bs))) == AddCounts(Kept(bs))
  {
    if bs != [] {
      var b, rest := bs[0], bs[1..];
      StagesAreOneFilter(rest);
      var head := if |b.data| > 0 then [b] else [];
      var kh := if Survives(b) then [b] else [];
      assert DropEmpty(bs) == head + DropEmpty(rest);
      assert Kept(bs) == kh + Kept(rest);
      AddCountsConcat(head, DropEmpty(rest));
      HideOfflineConcat(AddCounts(head), AddCounts(DropEmpty(rest)));
      AddCountsConcat(kh, Kept(rest));
      StagesOnOne(b);
    }
  }

  lemma StagesOnOne<M>(b: Bucket<M>)
    ensures HideOffline(AddCounts(if |b.data| > 0 then [b] else [])) == AddCounts(if Survives(b) then [b] else [])
  {
    if |b.data| > 0 {
      var c := AddCount(b);
      assert AddCounts([b]) == [c];
      assert [c][1..] == [];
      assert HideOffline([c]) == (if HiddenOffline(c.title, |c.data|) then [] else [c]) + HideOffline([]);
    } else {
      assert AddCounts<M>([]) == [];
    }
  }

  lemma {:induction false} KeptConcat<M>(a: seq<Bucket<M>>, b: seq<Bucket<M>>)
    ensures Kept(a + b) == Kept(a) + Kept(b)
  {
    if a != [] {
      assert (a + b)[1..] == a[1..] + b;
      KeptConcat(a[1..], b);
    } else {
      assert a + b == b;
    }
  }

  lemma {:induction false} FlattenConcat<M>(a: seq<Section<M>>, b: seq<Section<M>>)
    ensures Flatten(a + b) == Flatten(a) + Flatten(b)
  {
    if a != [] {
      assert (a + b)[1..] == a[1..] + b;
      FlattenConcat(a[1..], b);
    } else {
      assert a + b == b;
    }
  }

  /** What one bucket contributes to the render list: nothing, or its counted
      title followed by its members sorted by name. */
  lemma RenderOne<M>(b: Bucket<M>)
    ensures Render([b]) ==
      if Survives(b) then [Title(CountedTitle(b.title, |b.data|))] + AsRefs(MembersOf(SortByName(b.data)))
      else []
  {
    StagesAreOneFilter([b]);
    assert [b][1..] == [];
    assert Kept([b]) == if Survives(b) then [b] else [];
    var ss := ToSections(AddCounts(Kept([b])));
    if Survives(b) {
      assert ss == [ToSection(AddCount(b))];
      assert Flatten(ss) == [Title(ss[0].title)] + AsRefs(ss[0].members) + Flatten([]);
    }
  }

  /** Buckets are rendered independently and in order: the render list of
      several buckets is the concatenation of theirs. */
  lemma RenderConcat<M>(a: seq<Bucket<M>>, b: seq<Bucket<M>>)
    ensures Render(a + b) == Render(a) + Render(b)
  {
    StagesAreOneFilter(a + b);
    StagesAreOneFilter(a);
    StagesAreOneFilter(b);
    KeptConcat(a, b);
    var ka, kb := Kept(a), Kept(b);
    AddCountsConcat(ka, kb);
    ToSectionsConcat(AddCounts(ka), AddCounts(kb));
    FlattenConcat(ToSections(AddCounts(ka)), ToSections(AddCounts(kb)));
  }

  lemma AddCountsConcat<M>(a: seq<Bucket<M>>, b: seq<Bucket<M>>)
    ensures AddCounts(a + b) == AddCounts(a) + AddCounts(b)
  {
    var l, r := AddCounts(a + b), AddCounts(a) + AddCounts(b);
    assert |l| == |r|;
    forall i | 0 <= i < |l| ensures l[i] == r[i] {
      if i < |a| { assert (a + b)[i] == a[i]; } else { assert (a + b)[i] == b[i - |a|]; }
    }
  }

  lemma ToSectionsConcat<M>(a: seq<Bucket<M>>, b: seq<Bucket<M>>)
    ensures ToSections(a + b) == ToSections(a) + ToSections(b)
  {
    var l, r := ToSections(a + b), ToSections(a) + ToSections(b);
    assert |l| == |r|;
    forall i | 0 <= i < |l| ensures l[i] == r[i] {
      if i < |a| { assert (a + b)[i] == a[i]; } else { assert (a + b)[i] == b[i - |a|]; }
    }
  }

  /** The render list read back as sections is exactly the surviving buckets,
      in their original order, each with its counted title and sorted members. */
  lemma RenderSections<M>(bs: seq<Bucket<M>>)
    ensures Parse(Render(bs)) == ToSections(AddCounts(Kept(bs)))
  {
    StagesAreOneFilter(bs);
    ParseFlatten(ToSections(AddCounts(Kept(bs))));
  }

  // ---- sorting

  lemma {:induction false} InsertPermutes<M>(x: Attached<M>, s: seq<Attached<M>>)
    ensures multiset(InsertByName(x, s)) == multiset([x]) + multiset(s)
  {
    if s != [] && SortsAfter(x, s[0]) {
      InsertPermutes(x, s[1..]);
      assert s == [s[0]] + s[1..];
    }
  }

  /** Sorting neither loses nor invents an attached member. */
  lemma {:induction false} SortPermutes<M>(d: seq<Attached<M>>)
    ensures multiset(SortByName(d)) == multiset(d)
  {
    if d != [] {
      SortPermutes(d[1..]);
      InsertPermutes(d[0], SortByName(d[1..]));
      assert d == [d[0]] + d[1..];
    }
  }

  lemma {:induction false} InsertMembersPermute<M>(x: Attached<M>, s: seq<Attached<M>>)
    ensures multiset(MembersOf(InsertByName(x, s))) == multiset([x.member]) + multiset(MembersOf(s))
  {
    if s == [] {
      assert MembersOf([x]) == [x.member];
    } else if SortsAfter(x, s[0]) {
      InsertMembersPermute(x, s[1..]);
      assert MembersOf(InsertByName(x, s)) == [s[0].member] + MembersOf(InsertByName(x, s[1..]));
      assert MembersOf(s) == [s[0].member] + MembersOf(s[1..]);
    } else {
      assert MembersOf(InsertByName(x, s)) == [x.member] + MembersOf(s);
    }
  }

  /** The members a section shows are a permutation of the members attached to its bucket. */
  lemma {:induction false} SortMembersPermute<M>(d: seq<Attached<M>>)
    ensures multiset(MembersOf(SortByName(d))) == multiset(MembersOf(d))
  {
    if d != [] {
      SortMembersPermute(d[1..]);
      InsertMembersPermute(d[0], SortByName(d[1..]));
      assert MembersOf(d) == [d[0].member] + MembersOf(d[1..]);
    }
  }

  predicate AllNamed<M>(d: seq<Attached<M>>) {
    forall i :: 0 <= i < |d| ==> d[i].name != ""
  }

  /** Consecutive members in non-decreasing order of lower-cased username. */
  predicate NameOrdered<M>(d: seq<Attached<M>>) {
    forall i :: 0 <= i < |d| - 1 ==> LexLessEq(Lower(d[i].name), Lower(d[i + 1].name))
  }

  lemma {:induction false} InsertOrders<M>(x: Attached<M>, s: seq<Attached<M>>)
    requires x.name != "" && AllNamed(s) && NameOrdered(s)
    ensures var r := InsertByName(x, s);
      |r| == |s| + 1 && AllNamed(r) && NameOrdered(r) && (r[0] == x || r[0] == s[0])
  {
    if s != [] {
      if SortsAfter(x, s[0]) {
        InsertOrders(x, s[1..]);
        var t := InsertByName(x, s[1..]);
        assert t[0] == x || t[0] == s[1];
        assert LexLessEq(Lower(s[0].name), Lower(t[0].name));
        assert InsertByName(x, s) == [s[0]] + t;
      } else {
        LexTotal(Lower(x.name), Lower(s[0].name));
        assert InsertByName(x, s) == [x] + s;
      }
    }
  }

  /** When every member has a username, the sort leaves the bucket in
      non-decreasing order of lower-cased username. */
  lemma {:induction false} SortOrders<M>(d: seq<Attached<M>>)
    requires AllNamed(d)
    ensures AllNamed(SortByName(d)) && NameOrdered(SortByName(d))
  {
    if d != [] {
      assert AllNamed(d[1..]) by {
        forall i | 0 <= i < |d| - 1 ensures d[1..][i].name != "" { assert d[1..][i] == d[i + 1]; }
      }
      SortOrders(d[1..]);
      InsertOrders(d[0], SortByName(d[1..]));
    }
  }

  // ---- what every section of a render list satisfies

  /** Every section of the render list: its title is the bucket title with
      ` - n` appended, where `n` is the number of members that follow it;
      it is never empty; it is never a hidden offline bucket; its members are
      that bucket's attached members sorted by name, hence a permutation of
      them; and the sections keep the buckets' order. */
  lemma RenderedSectionFacts<M>(bs: seq<Bucket<M>>)
    ensures var ss, kept := Parse(Render(bs)), Kept(bs);
      && |ss| == |kept|
      && forall k :: 0 <= k < |ss| ==>
        && ss[k].title == CountedTitle(kept[k].title, |ss[k].members|)
        && 0 < |ss[k].members|
        && !HiddenOffline(ss[k].title, |ss[k].members|)
        && ss[k].members == MembersOf(SortByName(kept[k].data))
        && multiset(ss[k].members) == multiset(MembersOf(kept[k].data))
  {
    RenderSections(bs);
    var kept := Kept(bs);
    forall k | 0 <= k < |kept|
      ensures multiset(MembersOf(SortByName(kept[k].data))) == multiset(MembersOf(kept[k].data))
      ensures |SortByName(kept[k].data)| == |kept[k].data|
    {
      SortMembersPermute(kept[k].data);
      SortPermutesLength(kept[k].data);
    }
  }

  lemma {:induction false} SortPermutesLength<M>(d: seq<Attached<M>>)
    ensures |SortByName(d)| == |d|
  {
    if d != [] {
      SortPermutesLength(d[1..]);
      InsertLength(d[0], SortByName(d[1..]));
    }
  }

  lemma {:induction false} InsertLength<M>(x: Attached<M>, s: seq<Attached<M>>)
    ensures |InsertByName(x, s)| == |s| + 1
  {
    if s != [] && SortsAfter(x, s[0]) {
      InsertLength(x, s[1..]);
    }
  }

  /** A bucket whose title starts with "offline" (ignoring case) disappears
      exactly when it is empty or holds 100 or more members: 99 are shown,
      100 are hidden. */
  lemma OfflineThreshold<M>(b: Bucket<M>)
    requires StartsWith(Lower(b.title), "offline")
    ensures Render([b]) == [] <==> |b.data| == 0 || |b.data| >= 100
  {
    RenderOne(b);
    var t := CountedTitle(b.title, |b.data|);
    LowerConcat(b.title, " - " + Decimal(|b.data|));
    assert Lower(t)[..7] == Lower(b.title)[..7];
    assert StartsWith(Lower(t), "offline");
  }

  // ---- replacing what a member is: positions in the specification, objects in the store

  predicate AttachedIn<A(==), B>(d: seq<Attached<A>>, m: map<A, B>) {
    forall i :: 0 <= i < |d| ==> d[i].member in m
  }

  predicate BucketsIn<A(==), B>(bs: seq<Bucket<A>>, m: map<A, B>) {
    forall i :: 0 <= i < |bs| ==> AttachedIn(bs[i].data, m)
  }

  predicate EntriesIn<A(==), B>(es: seq<Entry<A>>, m: map<A, B>) {
    forall i :: 0 <= i < |es| ==> es[i].Ref? ==> es[i].member in m
  }

  function BindOne<A(==), B>(a: Attached<A>, m: map<A, B>): Attached<B>
    requires a.member in m
  {
    Attached(m[a.member], a.index, a.name)
  }

  function BindAttached<A(==), B>(d: seq<Attached<A>>, m: map<A, B>): (r: seq<Attached<B>>)
    requires AttachedIn(d, m)
    ensures |r| == |d|
    ensures forall i :: 0 <= i < |d| ==> r[i] == BindOne(d[i], m)
  {
    seq(|d|, i requires 0 <= i < |d| => BindOne(d[i], m))
  }

  function BindBucket<A(==), B>(b: Bucket<A>, m: map<A, B>): Bucket<B>
    requires AttachedIn(b.data, m)
  {
    Bucket(b.title, BindAttached(b.data, m))
  }

  function BindBuckets<A(==), B>(bs: seq<Bucket<A>>, m: map<A, B>): (r: seq<Bucket<B>>)
    requires BucketsIn(bs, m)
    ensures |r| == |bs|
    ensures forall i :: 0 <= i < |bs| ==> r[i] == BindBucket(bs[i], m)
  {
    seq(|bs|, i requires 0 <= i < |bs| => BindBucket(bs[i], m))
  }

  function BindEntry<A(==), B>(e: Entry<A>, m: map<A, B>): Entry<B>
    requires e.Ref? ==> e.member in m
  {
    match e
    case Title(t) => Title(t)
    case Ref(a) => Ref(m[a])
  }

  function BindEntries<A(==), B>(es: seq<Entry<A>>, m: map<A, B>): (r: seq<Entry<B>>)
    requires EntriesIn(es, m)
    ensures |r| == |es|
    ensures forall i :: 0 <= i < |es| ==> r[i] == BindEntry(es[i], m)
  {
    seq(|es|, i requires 0 <= i < |es| => BindEntry(es[i], m))
  }

  lemma {:induction false} InsertBind<A, B>(x: Attached<A>, s: seq<Attached<A>>, m: map<A, B>)
    requires x.member in m && AttachedIn(s, m)
    ensures AttachedIn(InsertByName(x, s), m)
    ensures InsertByName(BindOne(x, m), BindAttached(s, m)) == BindAttached(InsertByName(x, s), m)
  {
    if s != [] {
      var bs := BindAttached(s, m);
      assert bs[0] == BindOne(s[0], m);
      assert AttachedIn(s[1..], m) by {
        forall i | 0 <= i < |s| - 1 ensures s[1..][i].member in m { assert s[1..][i] == s[i + 1]; }
      }
      assert bs[1..] == BindAttached(s[1..], m);
      if SortsAfter(x, s[0]) {
        InsertBind(x, s[1..], m);
      }
    }
  }

  lemma {:induction false} SortBind<A, B>(d: seq<Attached<A>>, m: map<A, B>)
    requires AttachedIn(d, m)
    ensures AttachedIn(SortByName(d), m)
    ensures SortByName(BindAttached(d, m)) == BindAttached(SortByName(d), m)
  {
    if d != [] {
      assert AttachedIn(d[1..], m) by {
        forall i | 0 <= i < |d| - 1 ensures d[1..][i].member in m { assert d[1..][i] == d[i + 1]; }
      }
      SortBind(d[1..], m);
      assert BindAttached(d, m)[1..] == BindAttached(d[1..], m);
      InsertBind(d[0], SortByName(d[1..]), m);
    }
  }

  lemma RenderOneBind<A, B>(b: Bucket<A>, m: map<A, B>)
    requires AttachedIn(b.data, m)
    ensures EntriesIn(Render([b]), m)
    ensures Render([BindBucket(b, m)]) == BindEntries(Render([b]), m)
  {
    var bb := BindBucket(b, m);
    RenderOne(b);
    RenderOne(bb);
    assert |bb.data| == |b.data|;
    if Survives(b) {
      SortBind(b.data, m);
      var sorted := SortByName(b.data);
      RefsBind(sorted, m);
      var t: seq<Entry<A>> := [Title(CountedTitle(b.title, |b.data|))];
      BindEntriesConcat(t, AsRefs(MembersOf(sorted)), m);
      assert BindEntries(t, m) == [Title(CountedTitle(b.title, |b.data|))];
    }
  }

  lemma RefsBind<A, B>(d: seq<Attached<A>>, m: map<A, B>)
    requires AttachedIn(d, m)
    ensures EntriesIn(AsRefs(MembersOf(d)), m)
    ensures AsRefs(MembersOf(BindAttached(d, m))) == BindEntries(AsRefs(MembersOf(d)), m)
  {
    var l, r := AsRefs(MembersOf(BindAttached(d, m))), AsRefs(MembersOf(d));
    assert EntriesIn(r, m);
    forall i | 0 <= i < |l| ensures l[i] == BindEntry(r[i], m) {
    }
  }

  lemma BindEntriesConcat<A, B>(a: seq<Entry<A>>, b: seq<Entry<A>>, m: map<A, B>)
    requires EntriesIn(a, m) && EntriesIn(b, m)
    ensures EntriesIn(a + b, m)
    ensures BindEntries(a + b, m) == BindEntries(a, m) + BindEntries(b, m)
  {
    assert forall i :: 0 <= i < |a + b| ==> (a + b)[i] == if i < |a| then a[i] else b[i - |a|];
  }

  /** Rendering does not look at what a member is, only at its name: rendering
      after substituting members gives the render list with the same
      substitution. */
  lemma {:induction false} RenderBind<A, B>(bs: seq<Bucket<A>>, m: map<A, B>)
    requires BucketsIn(bs, m)
    ensures EntriesIn(Render(bs), m)
    ensures Render(BindBuckets(bs, m)) == BindEntries(Render(bs), m)
  {
    if bs == [] {
      assert Render(bs) == [];
      assert Render(BindBuckets(bs, m)) == [];
    } else {
      var b, rest := bs[0], bs[1..];
      BindBucketsCons(bs, m);
      RenderBind(rest, m);
      assert bs == [b] + rest;
      RenderBindStep(b, rest, m);
    }
  }

  /** The inductive step of `RenderBind`: one more bucket in front. */
  lemma RenderBindStep<A, B>(b: Bucket<A>, rest: seq<Bucket<A>>, m: map<A, B>)
    requires AttachedIn(b.data, m) && BucketsIn(rest, m) && BucketsIn([b] + rest, m)
    requires EntriesIn(Render(rest), m) && Render(BindBuckets(rest, m)) == BindEntries(Render(rest), m)
    requires BindBuckets([b] + rest, m) == [BindBucket(b, m)] + BindBuckets(rest, m)
    ensures EntriesIn(Render([b] + rest), m)
    ensures Render(BindBuckets([b] + rest, m)) == BindEntries(Render([b] + rest), m)
  {
    RenderOneBind(b, m);
    RenderConcat([b], rest);
    BindEntriesConcat(Render([b]), Render(rest), m);
    RenderConcat([BindBucket(b, m)], BindBuckets(rest, m));
  }

  lemma BindBucketsCons<A, B>(bs: seq<Bucket<A>>, m: map<A, B>)
    requires |bs| > 0 && BucketsIn(bs, m)
    ensures BucketsIn(bs[1..], m)
    ensures BindBuckets(bs, m) == [BindBucket(bs[0], m)] + BindBuckets(bs[1..], m)
  {
    var rest := bs[1..];
    assert BucketsIn(rest, m) by {
      forall i | 0 <= i < |rest| ensures AttachedIn(rest[i].data, m) { assert rest[i] == bs[i + 1]; }
    }
    var l, r := BindBuckets(bs, m), [BindBucket(bs[0], m)] + BindBuckets(rest, m);
    assert |l| == |r|;
    forall i | 0 <= i < |l| ensures l[i] == r[i] {
      if i > 0 {
        assert r[i] == BindBuckets(rest, m)[i - 1];
      }
    }
  }
}
