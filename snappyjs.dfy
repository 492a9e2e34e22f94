/**
 * The data handling of the SnappySense web front end (`aws/lambda/snappy.js`):
 * the list of devices to query, and the preparation of the observations
 * for plotting.  The DOM selectors, `fetch`, `Date.now()` and the canvas
 * are parameters or left out; the library `sort` is modelled by a stable
 * insertion sort, proved ordered, a permutation and stable.
 */
module SnappyJs {
  import opened Wrappers

  /** `DELTA`: the widest gap, in seconds, inside one stretch of a plot. */
  const Delta := 2 * 60 * 60

  const MsPerDay := 24 * 60 * 60 * 1000

  // ----------------------------------------------------- JavaScript string <

  /** `x < y` on JavaScript strings: lexicographic on character codes, a proper prefix first. */
  predicate Below(x: string, y: string)
    decreases |x|
  {
    if x == [] then y != []
    else y != [] && (x[0] < y[0] || (x[0] == y[0] && Below(x[1..], y[1..])))
  }

  lemma {:induction false} BelowIrreflexive(x: string)
    ensures !Below(x, x)
    decreases |x|
  {
    if x != [] {
      BelowIrreflexive(x[1..]);
    }
  }

  lemma {:induction false} BelowAsymmetric(x: string, y: string)
    ensures Below(x, y) ==> !Below(y, x)
    decreases |x|
  {
    if x != [] && y != [] && x[0] == y[0] {
      BelowAsymmetric(x[1..], y[1..]);
    }
  }

  lemma {:induction false} BelowTransitive(x: string, y: string, z: string)
    requires Below(x, y) && Below(y, z)
    ensures Below(x, z)
    decreases |x|
  {
    if x != [] && x[0] == y[0] && y[0] == z[0] {
      BelowTransitive(x[1..], y[1..], z[1..]);
    }
  }

  /** Any two different strings are ordered one way or the other. */
  lemma {:induction false} BelowTotal(x: string, y: string)
    ensures x == y || Below(x, y) || Below(y, x)
    decreases |x|
  {
    if x != [] && y != [] && x[0] == y[0] {
      BelowTotal(x[1..], y[1..]);
      if x[1..] == y[1..] {
        assert x == [x[0]] + x[1..] && y == [y[0]] + y[1..];
      }
    }
  }

  // --------------------------------------------------------------- sorting

  /** Ascending by `name`, as the comparator `x < y ? -1 : (x > y ? 1 : 0)` orders. */
  predicate NameSorted<T>(xs: seq<T>, name: T -> string) {
    forall i :: 0 < i < |xs| ==> !Below(name(xs[i]), name(xs[i - 1]))
  }

  function InsertByName<T>(x: T, xs: seq<T>, name: T -> string): (r: seq<T>)
    requires NameSorted(xs, name)
    ensures multiset(r) == multiset{x} + multiset(xs) && NameSorted(r, name)
    ensures |r| == |xs| + 1 && (r[0] == x || (xs != [] && r[0] == xs[0]))
  {
    if xs == [] then [x]
    else if Below(name(xs[0]), name(x)) then
      var rest := InsertByName(x, xs[1..], name);
      assert xs == [xs[0]] + xs[1..];
      BelowAsymmetric(name(xs[0]), name(x));
      NameSortedCons(xs[0], rest, name);
      [xs[0]] + rest
    else
      NameSortedCons(x, xs, name);
      [x] + xs
  }

  lemma NameSortedCons<T>(y: T, xs: seq<T>, name: T -> string)
    requires NameSorted(xs, name) && (xs != [] ==> !Below(name(xs[0]), name(y)))
    ensures NameSorted([y] + xs, name) && multiset([y] + xs) == multiset{y} + multiset(xs)
  {
    var r := [y] + xs;
    forall i | 0 < i < |r|
      ensures !Below(name(r[i]), name(r[i - 1]))
    {
      if i > 1 {
        assert r[i - 1] == xs[i - 2] && r[i] == xs[i - 1];
      }
    }
  }

  /** The library `sort` with a name comparator: an ordered permutation. */
  function SortByName<T>(xs: seq<T>, name: T -> string): (r: seq<T>)
    ensures multiset(r) == multiset(xs) && NameSorted(r, name)
  {
    if xs == [] then []
    else
      assert xs == [xs[0]] + xs[1..];
      InsertByName(xs[0], SortByName(xs[1..], name), name)
  }

  /** The items of `xs` whose name is `n`, in order. */
  function WithName<T>(xs: seq<T>, name: T -> string, n: string): seq<T> {
    if xs == [] then [] else (if name(xs[0]) == n then [xs[0]] else []) + WithName(xs[1..], name, n)
  }

  /** An inserted item goes before the items with its name. */
  lemma {:induction false} InsertByNameStable<T>(x: T, xs: seq<T>, name: T -> string, n: string)
    requires NameSorted(xs, name)
    ensures WithName(InsertByName(x, xs, name), name, n) == (if name(x) == n then [x] else []) + WithName(xs, name, n)
  {
    hide InsertByName, WithName, Below;
    InsertByNameStep(x, xs, name);
    if xs != [] && Below(name(xs[0]), name(x)) {
      InsertByNameStable(x, xs[1..], name, n);
      BelowIrreflexive(name(x));
      WithNameCons(xs[0], InsertByName(x, xs[1..], name), name, n);
      WithNameCons(xs[0], xs[1..], name, n);
      assert [xs[0]] + xs[1..] == xs;
    } else {
      WithNameCons(x, xs, name, n);
    }
  }

  lemma InsertByNameStep<T>(x: T, xs: seq<T>, name: T -> string)
    requires NameSorted(xs, name)
    ensures xs != [] && Below(name(xs[0]), name(x)) ==> InsertByName(x, xs, name) == [xs[0]] + InsertByName(x, xs[1..], name)
    ensures !(xs != [] && Below(name(xs[0]), name(x))) ==> InsertByName(x, xs, name) == [x] + xs
  {
    hide Below;
    assert xs != [] ==> NameSorted(xs[1..], name);
  }

  lemma WithNameCons<T>(a: T, b: seq<T>, name: T -> string, n: string)
    ensures WithName([a] + b, name, n) == (if name(a) == n then [a] else []) + WithName(b, name, n)
  {
    assert ([a] + b)[1..] == b;
  }

  /** The sort is stable: items with the same name keep their order. */
  lemma {:induction false} SortByNameStable<T>(xs: seq<T>, name: T -> string, n: string)
    ensures WithName(SortByName(xs, name), name, n) == WithName(xs, name, n)
  {
    if xs != [] {
      SortByNameStable(xs[1..], name, n);
      InsertByNameStable(xs[0], SortByName(xs[1..], name), name, n);
    }
  }

  /** Strictly ascending: no name twice. */
  predicate StrictlyAscending(xs: seq<string>) {
    forall i :: 0 < i < |xs| ==> Below(xs[i - 1], xs[i])
  }

  /** A strictly ascending list has no duplicates. */
  lemma {:induction false} AscendingDistinct(xs: seq<string>, i: nat, j: nat)
    requires StrictlyAscending(xs) && i < j < |xs|
    ensures Below(xs[i], xs[j]) && xs[i] != xs[j]
    decreases j - i
  {
    if j > i + 1 {
      AscendingDistinct(xs, i, j - 1);
      BelowTransitive(xs[i], xs[j - 1], xs[j]);
    }
    BelowIrreflexive(xs[i]);
  }

  // ------------------------------------------------ perform_query_stage_2

  function Id(s: string): string { s }

  /** The compress loop: equal neighbours of a sorted list kept once. */
  method Dedup(xs: seq<string>) returns (ys: seq<string>)
    requires |xs| > 0 && NameSorted(xs, Id)
    ensures StrictlyAscending(ys)
    ensures forall s :: s in ys <==> s in xs
  {
    ys := [xs[0]];
    var i := 1;
    while i < |xs|
      invariant 1 <= i <= |xs| && |ys| > 0
      invariant StrictlyAscending(ys) && ys[|ys| - 1] == xs[i - 1]
      invariant forall s :: s in ys <==> s in xs[..i]
    {
      assert xs[..i + 1] == xs[..i] + [xs[i]];
      if xs[i] != ys[|ys| - 1] {
        assert !Below(Id(xs[i]), Id(xs[i - 1]));
        BelowTotal(xs[i - 1], xs[i]);
        ys := ys + [xs[i]];
      }
      i := i + 1;
    }
    assert xs[..i] == xs;
  }

  /** The devices and factor that `fetch_and_plot_all` is called with. */
  datatype Query = Query(devices: seq<string>, factor: string)

  /**
   * `perform_query_stage_2`: the devices of the selected locations and the
   * selected devices, sorted without duplicates, with the selected factor;
   * nothing when there is no device, no factor selected or an empty one.
   * `factorIndex` is the selector's `selectedIndex`, -1 for none.
   */
  method QueryStage2(fromLocations: seq<string>, selected: seq<string>, factorIndex: int, factors: seq<string>)
    returns (q: Option<Query>)
    requires factorIndex == -1 || 0 <= factorIndex < |factors|
    ensures q.None? <==> fromLocations + selected == [] || factorIndex == -1 || factors[factorIndex] == ""
    ensures q.Some? ==> && StrictlyAscending(q.value.devices)
                        && (forall s :: s in q.value.devices <==> s in fromLocations + selected)
                        && q.value.factor == factors[factorIndex]
  {
    var ids := fromLocations + selected;
    if |ids| == 0 {
      return None;
    }
    var sorted := SortByName(ids, Id);
    assert forall s :: s in sorted <==> s in ids by {
      assert forall s :: s in sorted <==> s in multiset(sorted);
    }
    var devices := Dedup(sorted);
    if factorIndex == -1 {
      return None;
    }
    var factor := factors[factorIndex];
    if factor == "" {
      return None;
    }
    return Some(Query(devices, factor));
  }

  // ------------------------------------------------------------- plot_data

  /** An observation `[sent, value]`, `sent` in seconds. */
  datatype Obs = Obs(sent: int, value: int)

  /** One element of `datas`. */
  datatype DeviceData = DeviceData(device: string, observations: seq<Obs>)

  /** The start of the chosen time range, in milliseconds; any other choice keeps everything. */
  function TimeCutoffMs(range: string, nowMs: int): (c: int)
    ensures range !in {"last-day", "last-two-days", "last-week", "last-month", "last-year"} ==> c == 0
  {
    match range
    case "last-day" => nowMs - MsPerDay
    case "last-two-days" => nowMs - 2 * MsPerDay
    case "last-week" => nowMs - 7 * MsPerDay
    case "last-month" => nowMs - 31 * MsPerDay
    case "last-year" => nowMs - 365 * MsPerDay
    case _ => 0
  }

  /** Each longer range reaches further back, and the day before now is the shortest. */
  lemma RangesNest(nowMs: int)
    ensures TimeCutoffMs("last-day", nowMs) == nowMs - MsPerDay
    ensures TimeCutoffMs("last-year", nowMs) < TimeCutoffMs("last-month", nowMs) < TimeCutoffMs("last-week", nowMs)
      < TimeCutoffMs("last-two-days", nowMs) < TimeCutoffMs("last-day", nowMs) < nowMs
  {
  }

  /** The two filters of `plot_data`: credible times, and times in the chosen range. */
  datatype Keep = Credible(launder: int) | InRange(cutoffMs: int)

  predicate Keeps(p: Keep, x: Obs) {
    match p
    case Credible(launder) => x.sent >= launder
    case InRange(cutoffMs) => x.sent * 1000 >= cutoffMs
  }

  /** The observations of `s` that `p` keeps, in order. */
  function Filter(s: seq<Obs>, p: Keep): (r: seq<Obs>)
    ensures forall x :: x in r ==> Keeps(p, x)
  {
    if s == [] then [] else Filter(s[..|s| - 1], p) + (if Keeps(p, s[|s| - 1]) then [s[|s| - 1]] else [])
  }

  /** `Filter` keeps every copy of an observation it keeps. */
  lemma {:induction false} FilterCount(s: seq<Obs>, p: Keep, x: Obs)
    ensures multiset(Filter(s, p))[x] == if Keeps(p, x) then multiset(s)[x] else 0
  {
    if s != [] {
      FilterCount(s[..|s| - 1], p, x);
      assert s == s[..|s| - 1] + [s[|s| - 1]];
    }
  }

  lemma {:induction false} FilterConcat(a: seq<Obs>, b: seq<Obs>, p: Keep)
    ensures Filter(a + b, p) == Filter(a, p) + Filter(b, p)
    decreases |b|
  {
    if b == [] {
      assert a + b == a;
    } else {
      assert (a + b)[..|a + b| - 1] == a + b[..|b| - 1];
      FilterConcat(a, b[..|b| - 1], p);
    }
  }

  lemma {:induction false} FilterAll(s: seq<Obs>, p: Keep)
    requires forall i :: 0 <= i < |s| ==> Keeps(p, s[i])
    ensures Filter(s, p) == s
  {
    if s != [] {
      FilterAll(s[..|s| - 1], p);
    }
  }

  lemma {:induction false} FilterNone(s: seq<Obs>, p: Keep)
    requires forall i :: 0 <= i < |s| ==> !Keeps(p, s[i])
    ensures Filter(s, p) == []
  {
    if s != [] {
      FilterNone(s[..|s| - 1], p);
    }
  }

  /** Ascending by `sent`, as the comparator `x[0] - y[0]` orders. */
  predicate TimeSorted(s: seq<Obs>) {
    forall i :: 0 < i < |s| ==> s[i - 1].sent <= s[i].sent
  }

  function InsertByTime(x: Obs, s: seq<Obs>): (r: seq<Obs>)
    requires TimeSorted(s)
    ensures multiset(r) == multiset{x} + multiset(s) && TimeSorted(r)
    ensures |r| == |s| + 1 && (r[0] == x || (s != [] && r[0] == s[0]))
  {
    if s == [] then [x]
    else if s[0].sent < x.sent then
      var rest := InsertByTime(x, s[1..]);
      assert s == [s[0]] + s[1..];
      TimeSortedCons(s[0], rest);
      [s[0]] + rest
    else
      TimeSortedCons(x, s);
      [x] + s
  }

  lemma TimeSortedCons(y: Obs, s: seq<Obs>)
    requires TimeSorted(s) && (s != [] ==> y.sent <= s[0].sent)
    ensures TimeSorted([y] + s) && multiset([y] + s) == multiset{y} + multiset(s)
  {
    var r := [y] + s;
    forall i | 0 < i < |r|
      ensures r[i - 1].sent <= r[i].sent
    {
      if i > 1 {
        assert r[i - 1] == s[i - 2] && r[i] == s[i - 1];
      }
    }
  }

  /** The library `sort` with the comparator `x[0] - y[0]`. */
  function SortByTime(s: seq<Obs>): (r: seq<Obs>)
    ensures multiset(r) == multiset(s) && TimeSorted(r)
  {
    if s == [] then []
    else
      assert s == [s[0]] + s[1..];
      InsertByTime(s[0], SortByTime(s[1..]))
  }

  /** The observations of `s` sent at time `t`, in order. */
  function SentAt(s: seq<Obs>, t: int): seq<Obs> {
    if s == [] then [] else (if s[0].sent == t then [s[0]] else []) + SentAt(s[1..], t)
  }

  /** An inserted observation goes before the observations sent at the same time. */
  lemma {:induction false} InsertByTimeStable(x: Obs, s: seq<Obs>, t: int)
    requires TimeSorted(s)
    ensures SentAt(InsertByTime(x, s), t) == (if x.sent == t then [x] else []) + SentAt(s, t)
  {
    hide InsertByTime, SentAt;
    InsertByTimeStep(x, s);
    if s != [] && s[0].sent < x.sent {
      InsertByTimeStable(x, s[1..], t);
      SentAtCons(s[0], InsertByTime(x, s[1..]), t);
      SentAtCons(s[0], s[1..], t);
      assert [s[0]] + s[1..] == s;
    } else {
      SentAtCons(x, s, t);
    }
  }

  lemma InsertByTimeStep(x: Obs, s: seq<Obs>)
    requires TimeSorted(s)
    ensures s != [] && s[0].sent < x.sent ==> InsertByTime(x, s) == [s[0]] + InsertByTime(x, s[1..])
    ensures !(s != [] && s[0].sent < x.sent) ==> InsertByTime(x, s) == [x] + s
  {
    assert s != [] ==> TimeSorted(s[1..]);
  }

  lemma SentAtCons(a: Obs, b: seq<Obs>, t: int)
    ensures SentAt([a] + b, t) == (if a.sent == t then [a] else []) + SentAt(b, t)
  {
    assert ([a] + b)[1..] == b;
  }

  /** The sort is stable: observations sent at the same time keep their order. */
  lemma {:induction false} SortByTimeStable(s: seq<Obs>, t: int)
    ensures SentAt(SortByTime(s), t) == SentAt(s, t)
  {
    if s != [] {
      SortByTimeStable(s[1..], t);
      InsertByTimeStable(s[0], SortByTime(s[1..]), t);
    }
  }

  /** The `while` loop skipping the observations before the cutoff. */
  method SkipBefore(s: seq<Obs>, cutoffMs: int) returns (i: nat)
    ensures i <= |s|
    ensures forall j :: 0 <= j < i ==> s[j].sent * 1000 < cutoffMs
    ensures i < |s| ==> s[i].sent * 1000 >= cutoffMs
  {
    i := 0;
    while i < |s| && s[i].sent * 1000 < cutoffMs
      invariant i <= |s| && forall j :: 0 <= j < i ==> s[j].sent * 1000 < cutoffMs
    {
      i := i + 1;
    }
  }

  /** In a list sorted by time, what follows the skipped observations is exactly those at or after the cutoff. */
  lemma SortedSuffix(s: seq<Obs>, cutoffMs: int, i: nat)
    requires TimeSorted(s) && i <= |s|
    requires forall j :: 0 <= j < i ==> s[j].sent * 1000 < cutoffMs
    requires i < |s| ==> s[i].sent * 1000 >= cutoffMs
    ensures s[i..] == Filter(s, InRange(cutoffMs))
  {
    hide Filter;
    var p := InRange(cutoffMs);
    assert s == s[..i] + s[i..];
    FilterConcat(s[..i], s[i..], p);
    FilterNone(s[..i], p);
    SuffixInRange(s, cutoffMs, i);
    FilterAll(s[i..], p);
  }

  lemma SuffixInRange(s: seq<Obs>, cutoffMs: int, i: nat)
    requires TimeSorted(s) && i <= |s|
    requires i < |s| ==> s[i].sent * 1000 >= cutoffMs
    ensures forall j :: 0 <= j < |s[i..]| ==> Keeps(InRange(cutoffMs), s[i..][j])
  {
    forall j | 0 <= j < |s[i..]|
      ensures Keeps(InRange(cutoffMs), s[i..][j])
    {
      Ascending(s, i, i + j);
    }
  }

  lemma {:induction false} Ascending(s: seq<Obs>, i: nat, j: nat)
    requires TimeSorted(s) && i <= j < |s|
    ensures s[i].sent <= s[j].sent
    decreases j - i
  {
    if i < j {
      Ascending(s, i, j - 1);
    }
  }

  /** The observations of one device that are plotted: credible and in range, by time. */
  function Kept(obs: seq<Obs>, launder: int, cutoffMs: int): seq<Obs> {
    Filter(SortByTime(Filter(obs, Credible(launder))), InRange(cutoffMs))
  }

  /**
   * The plotted observations of a device are its observations at or after
   * both cutoffs, each as often as it was received, ascending by time.
   */
  lemma KeptMeans(obs: seq<Obs>, launder: int, cutoffMs: int)
    ensures TimeSorted(Kept(obs, launder, cutoffMs))
    ensures forall x :: multiset(Kept(obs, launder, cutoffMs))[x]
                    == if x.sent >= launder && x.sent * 1000 >= cutoffMs then multiset(obs)[x] else 0
  {
    var l := Credible(launder);
    var p := InRange(cutoffMs);
    var s := SortByTime(Filter(obs, l));
    var i := FirstAtOrAfter(s, cutoffMs);
    SortedSuffix(s, cutoffMs, i);
    forall x
      ensures multiset(Kept(obs, launder, cutoffMs))[x]
        == if x.sent >= launder && x.sent * 1000 >= cutoffMs then multiset(obs)[x] else 0
    {
      FilterCount(s, p, x);
      FilterCount(obs, l, x);
    }
    SuffixSorted(s, i);
  }

  lemma SuffixSorted(s: seq<Obs>, i: nat)
    requires TimeSorted(s) && i <= |s|
    ensures TimeSorted(s[i..])
  {
    forall j | 0 < j < |s| - i
      ensures s[i..][j - 1].sent <= s[i..][j].sent
    {
      assert s[i..][j] == s[i + j] && s[i..][j - 1] == s[i + j - 1];
    }
  }

  /** The index where the skip loop stops. */
  function FirstAtOrAfter(s: seq<Obs>, cutoffMs: int): (i: nat)
    ensures i <= |s|
    ensures forall j :: 0 <= j < i ==> s[j].sent * 1000 < cutoffMs
    ensures i < |s| ==> s[i].sent * 1000 >= cutoffMs
  {
    if s == [] || s[0].sent * 1000 >= cutoffMs then 0 else 1 + FirstAtOrAfter(s[1..], cutoffMs)
  }

  /** The devices that still have observations, in their order. */
  function NonEmpty(ds: seq<DeviceData>): (r: seq<DeviceData>)
    ensures forall d :: d in r <==> d in ds && d.observations != []
  {
    if ds == [] then []
    else NonEmpty(ds[..|ds| - 1]) + (if ds[|ds| - 1].observations != [] then [ds[|ds| - 1]] else [])
  }

  function DeviceName(d: DeviceData): string { d.device }

  /** Every device with its observations reduced to the plotted ones. */
  function Laundered(ds: seq<DeviceData>, launder: int, cutoffMs: int): (r: seq<DeviceData>)
    ensures |r| == |ds|
    ensures forall k :: 0 <= k < |ds| ==> r[k] == DeviceData(ds[k].device, Kept(ds[k].observations, launder, cutoffMs))
  {
    if ds == [] then []
    else
      var last := DeviceData(ds[|ds| - 1].device, Kept(ds[|ds| - 1].observations, launder, cutoffMs));
      Laundered(ds[..|ds| - 1], launder, cutoffMs) + [last]
  }

  /**
   * The data preparation of `plot_data`: each device keeps its credible
   * observations (`launder` is the start of February 2023 in seconds) at or
   * after the cutoff, sorted by time; devices left without observations are
   * dropped and the rest sorted by name.
   */
  method PrepareDatas(datas: seq<DeviceData>, launder: int, cutoffMs: int) returns (out: seq<DeviceData>)
    ensures out == SortByName(NonEmpty(Laundered(datas, launder, cutoffMs)), DeviceName)
  {
    var ds := datas;
    var k := 0;
    while k < |ds|
      invariant |ds| == |datas| && k <= |ds|
      invariant forall j :: 0 <= j < k ==> ds[j] == DeviceData(datas[j].device, Kept(datas[j].observations, launder, cutoffMs))
      invariant forall j :: k <= j < |ds| ==> ds[j] == datas[j]
    {
      var laundered := Filter(ds[k].observations, Credible(launder));
      var sorted := SortByTime(laundered);
      var i := SkipBefore(sorted, cutoffMs);
      SortedSuffix(sorted, cutoffMs, i);
      ds := ds[k := DeviceData(ds[k].device, sorted[i..])];
      k := k + 1;
    }
    assert ds == Laundered(datas, launder, cutoffMs);
    ds := NonEmpty(ds);
    out := SortByName(ds, DeviceName);
  }

  /**
   * What is plotted: devices sorted by name, each with observations, and
   * each the plotted observations of an input device; every input device
   * with plotted observations is there.
   */
  lemma PreparedMeans(datas: seq<DeviceData>, launder: int, cutoffMs: int)
    ensures var out := SortByName(NonEmpty(Laundered(datas, launder, cutoffMs)), DeviceName);
      && NameSorted(out, DeviceName)
      && (forall d :: d in out ==>
            (d.observations != []
             && exists k :: 0 <= k < |datas| && d == DeviceData(datas[k].device, Kept(datas[k].observations, launder, cutoffMs))))
      && (forall k :: 0 <= k < |datas| && Kept(datas[k].observations, launder, cutoffMs) != [] ==>
            DeviceData(datas[k].device, Kept(datas[k].observations, launder, cutoffMs)) in out)
  {
    var l := Laundered(datas, launder, cutoffMs);
    var out := SortByName(NonEmpty(l), DeviceName);
    assert forall d :: d in out <==> d in NonEmpty(l) by {
      assert forall d :: d in out <==> d in multiset(out);
    }
    forall d | d in out
      ensures exists k :: 0 <= k < |datas| && d == DeviceData(datas[k].device, Kept(datas[k].observations, launder, cutoffMs))
    {
      var k :| 0 <= k < |l| && l[k] == d;
    }
    forall k | 0 <= k < |datas| && Kept(datas[k].observations, launder, cutoffMs) != []
      ensures DeviceData(datas[k].device, Kept(datas[k].observations, launder, cutoffMs)) in out
    {
      assert l[k] in l;
    }
  }

  // -------------------------------------------------------------- buckets

  function Concat(bs: seq<seq<Obs>>): seq<Obs> {
    if bs == [] then [] else Concat(bs[..|bs| - 1]) + bs[|bs| - 1]
  }

  /** Within a stretch, each observation is less than `DELTA` after the one before. */
  predicate Close(b: seq<Obs>) {
    forall i :: 0 < i < |b| ==> b[i - 1].sent + Delta > b[i].sent
  }

  /** Non-empty stretches, each close, each starting at least `DELTA` after the one before ends. */
  predicate Stretches(bs: seq<seq<Obs>>) {
    && (forall k :: 0 <= k < |bs| ==> |bs[k]| > 0 && Close(bs[k]))
    && (forall k :: 0 < k < |bs| ==> bs[k - 1][|bs[k - 1]| - 1].sent + Delta <= bs[k][0].sent)
  }

  /** A stretch may follow stretches when it starts at least `DELTA` after they end. */
  lemma StretchesSnoc(bs: seq<seq<Obs>>, b: seq<Obs>)
    requires Stretches(bs) && |b| > 0 && Close(b)
    requires |bs| > 0 ==> bs[|bs| - 1][|bs[|bs| - 1]| - 1].sent + Delta <= b[0].sent
    ensures Stretches(bs + [b]) && Concat(bs + [b]) == Concat(bs) + b
  {
    assert (bs + [b])[..|bs|] == bs;
  }

  lemma CloseSnoc(b: seq<Obs>, x: Obs)
    requires Close(b) && (|b| == 0 || b[|b| - 1].sent + Delta > x.sent)
    ensures Close(b + [x])
  {
  }

  /** What the bucketing loop has done after `i` observations: finished stretches `bs` and the open `bucket`. */
  predicate Cut(obs: seq<Obs>, i: nat, bs: seq<seq<Obs>>, bucket: seq<Obs>) {
    && i <= |obs| && Concat(bs) + bucket == obs[..i]
    && Stretches(bs) && Close(bucket) && (i > 0 ==> |bucket| > 0)
    && (|bs| > 0 ==> |bucket| > 0 && bs[|bs| - 1][|bs[|bs| - 1]| - 1].sent + Delta <= bucket[0].sent)
  }

  /** An observation close to the open stretch joins it. */
  lemma CutExtend(obs: seq<Obs>, i: nat, bs: seq<seq<Obs>>, bucket: seq<Obs>)
    requires Cut(obs, i, bs, bucket) && i < |obs|
    requires |bucket| == 0 || bucket[|bucket| - 1].sent + Delta > obs[i].sent
    ensures Cut(obs, i + 1, bs, bucket + [obs[i]])
  {
    CloseSnoc(bucket, obs[i]);
    assert obs[..i + 1] == obs[..i] + [obs[i]];
  }

  /** An observation far from the open stretch closes it and opens the next. */
  lemma CutBreak(obs: seq<Obs>, i: nat, bs: seq<seq<Obs>>, bucket: seq<Obs>)
    requires Cut(obs, i, bs, bucket) && i < |obs|
    requires |bucket| > 0 && bucket[|bucket| - 1].sent + Delta <= obs[i].sent
    ensures Cut(obs, i + 1, bs + [bucket], [obs[i]])
  {
    StretchesSnoc(bs, bucket);
    CloseSnoc([], obs[i]);
    hide Concat, Stretches, Close;
    var bs' := bs + [bucket];
    assert obs[..i + 1] == obs[..i] + [obs[i]];
    assert Concat(bs') + [obs[i]] == obs[..i + 1];
    assert bs'[|bs'| - 1] == bucket;
  }

  lemma CutStart(obs: seq<Obs>)
    ensures Cut(obs, 0, [], [])
  {
    assert obs[..0] == [];
  }

  /** Once every observation is read, the open stretch, if any, is the last. */
  lemma CutFinish(obs: seq<Obs>, bs: seq<seq<Obs>>, bucket: seq<Obs>)
    requires Cut(obs, |obs|, bs, bucket)
    ensures var r := if |bucket| > 0 then bs + [bucket] else bs;
      Concat(r) == obs && Stretches(r)
  {
    assert obs[..|obs|] == obs;
    if |bucket| > 0 {
      StretchesSnoc(bs, bucket);
    } else {
      assert Concat(bs) + bucket == Concat(bs);
    }
  }

  /**
   * The bucketing loop of `plot_data`: the observations, in order, cut into
   * non-empty stretches; a new stretch starts exactly where an observation
   * is at least `DELTA` after the one before.
   */
  method Buckets(obs: seq<Obs>) returns (bs: seq<seq<Obs>>)
    ensures Concat(bs) == obs
    ensures Stretches(bs)
  {
    hide Cut, Concat, Stretches;
    bs := [];
    var bucket: seq<Obs> := [];
    var i: nat := 0;
    CutStart(obs);
    while i < |obs|
      invariant i <= |obs| && Cut(obs, i, bs, bucket)
    {
      hide Close;
      if |bucket| == 0 || bucket[|bucket| - 1].sent + Delta > obs[i].sent {
        CutExtend(obs, i, bs, bucket);
        bucket := bucket + [obs[i]];
      } else {
        CutBreak(obs, i, bs, bucket);
        bs := bs + [bucket];
        bucket := [obs[i]];
      }
      i := i + 1;
    }
    CutFinish(obs, bs, bucket);
    if |bucket| > 0 {
      bs := bs + [bucket];
    }
  }
}
