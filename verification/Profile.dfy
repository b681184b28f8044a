/** profile/profile.go: validating the active layout, and its way to main-api. */
module Profile {
  import opened Wrappers
  import SlotTable

  datatype SlotYaml = SlotYaml(size: int, gpus: seq<int>, domain: string)
  datatype Layout = Layout(name: string, slots: seq<SlotYaml>)
  datatype File = File(active: string, layouts: seq<Layout>)

  datatype ResolveError =
    | ActiveMissing
    | SizeMismatch(slot: nat)
    | EmptyGpus(slot: nat)
    | UnknownGpu(slot: nat, gpu: int)
    | DuplicateGpu(gpu: int)
    | SharedDomain(domain: string, first: nat, second: nat)

  // ---- what acceptance means ----

  // Every GPU the first n slots name, in order.
  function Flat(slots: seq<SlotYaml>, n: nat): seq<int>
    requires n <= |slots|
  {
    if n == 0 then [] else Flat(slots, n - 1) + slots[n - 1].gpus
  }

  function Members(s: seq<int>): set<int> {
    set g | g in s
  }

  ghost predicate NoDup(s: seq<int>) {
    forall p, q :: 0 <= p < q < |s| ==> s[p] != s[q]
  }

  ghost predicate DistinctDomains(slots: seq<SlotYaml>, n: nat)
    requires n <= |slots|
  {
    forall i, j :: 0 <= i < j < n && slots[i].domain != "" ==> slots[i].domain != slots[j].domain
  }

  ghost predicate Sized(s: SlotYaml) {
    s.size > 0 && s.size == |s.gpus|
  }

  ghost predicate Known(s: SlotYaml, hosts: seq<int>) {
    forall g :: g in s.gpus ==> g in hosts
  }

  ghost predicate AcceptableUpTo(slots: seq<SlotYaml>, n: nat, hosts: seq<int>)
    requires n <= |slots|
  {
    && (forall i :: 0 <= i < n ==> Sized(slots[i]) && Known(slots[i], hosts))
    && NoDup(Flat(slots, n))
    && DistinctDomains(slots, n)
  }

  ghost predicate Acceptable(slots: seq<SlotYaml>, hosts: seq<int>) {
    AcceptableUpTo(slots, |slots|, hosts)
  }

  // The first layout with the active name.
  ghost predicate IsActive(f: File, i: int) {
    && 0 <= i < |f.layouts| && f.layouts[i].name == f.active
    && forall j :: 0 <= j < i ==> f.layouts[j].name != f.active
  }

  // What each error reports about the layout it rejects.
  ghost predicate Explains(e: ResolveError, slots: seq<SlotYaml>, hosts: seq<int>) {
    match e
    case ActiveMissing => false
    case SizeMismatch(i) => i < |slots| && (slots[i].size <= 0 || (slots[i].gpus != [] && slots[i].size != |slots[i].gpus|))
    case EmptyGpus(i) => i < |slots| && slots[i].size > 0 && slots[i].gpus == []
    case UnknownGpu(i, g) => i < |slots| && g in slots[i].gpus && g !in hosts
    case DuplicateGpu(g) => exists p, q :: 0 <= p < q < |Flat(slots, |slots|)| && Flat(slots, |slots|)[p] == g == Flat(slots, |slots|)[q]
    case SharedDomain(d, i, j) => i < j < |slots| && d != "" && slots[i].domain == d && slots[j].domain == d
  }

  lemma {:induction false} FlatPrefix(slots: seq<SlotYaml>, n: nat, m: nat)
    requires n <= m <= |slots|
    ensures Flat(slots, n) <= Flat(slots, m)
    decreases m - n
  {
    if n < m {
      FlatPrefix(slots, n, m - 1);
    }
  }

  // ---- Resolve ----

  ghost predicate DomainsAre(slots: seq<SlotYaml>, n: nat, claimed: map<string, nat>)
    requires n <= |slots|
  {
    && (forall d :: d in claimed ==> d != "" && claimed[d] < n && slots[claimed[d]].domain == d)
    && forall i :: 0 <= i < n && slots[i].domain != "" ==> slots[i].domain in claimed
  }

  lemma DomainsNext(slots: seq<SlotYaml>, n: nat, claimed: map<string, nat>)
    requires n < |slots| && DomainsAre(slots, n, claimed) && DistinctDomains(slots, n)
    ensures slots[n].domain == "" ==> DistinctDomains(slots, n + 1) && DomainsAre(slots, n + 1, claimed)
    ensures slots[n].domain != "" && slots[n].domain !in claimed ==>
              DistinctDomains(slots, n + 1) && DomainsAre(slots, n + 1, claimed[slots[n].domain := n])
  {
  }

  // The inner loop: claims the GPUs of one slot.
  method Claim(slots: seq<SlotYaml>, i: nat, hosts: seq<int>, before: set<int>) returns (e: Option<ResolveError>, claimed: set<int>)
    requires i < |slots|
    requires NoDup(Flat(slots, i)) && before == Members(Flat(slots, i))
    ensures e.None? ==> Known(slots[i], hosts) && NoDup(Flat(slots, i + 1)) && claimed == Members(Flat(slots, i + 1))
    ensures e.Some? ==> !e.value.ActiveMissing? && Explains(e.value, slots, hosts)
  {
    claimed := before;
    var gpus := slots[i].gpus;
    FlatPrefix(slots, i + 1, |slots|);
    for k := 0 to |gpus|
      invariant NoDup(Flat(slots, i) + gpus[..k])
      invariant claimed == Members(Flat(slots, i) + gpus[..k])
      invariant forall g :: g in gpus[..k] ==> g in hosts
    {
      assert gpus[..k + 1] == gpus[..k] + [gpus[k]];
      if gpus[k] !in hosts { return Some(UnknownGpu(i, gpus[k])), claimed; }
      if gpus[k] in claimed {
        ghost var all := Flat(slots, |slots|);
        ghost var p :| 0 <= p < |Flat(slots, i) + gpus[..k]| && (Flat(slots, i) + gpus[..k])[p] == gpus[k];
        assert all[p] == gpus[k] == all[|Flat(slots, i)| + k];
        return Some(DuplicateGpu(gpus[k])), claimed;
      }
      ghost var seen := Flat(slots, i) + gpus[..k];
      assert Flat(slots, i) + gpus[..k + 1] == seen + [gpus[k]];
      assert gpus[k] !in seen;
      claimed := claimed + {gpus[k]};
    }
    assert gpus[..|gpus|] == gpus;
    return None, claimed;
  }

  lemma ExplainedIsDefect(e: ResolveError, slots: seq<SlotYaml>, hosts: seq<int>)
    requires Explains(e, slots, hosts)
    ensures !Acceptable(slots, hosts)
  {
    if e.UnknownGpu? {
      assert Known(slots[e.slot], hosts) <==> forall g :: g in slots[e.slot].gpus ==> g in hosts;
    } else if e.SizeMismatch? || e.EmptyGpus? {
      assert Sized(slots[e.slot]) <==> slots[e.slot].size > 0 && slots[e.slot].size == |slots[e.slot].gpus|;
    }
  }

  /** Sound and complete: it accepts if and only if the first layout with the active name
      exists and is acceptable, returns that layout's slots, and every error names a
      defect that is really there. */
  method Resolve(f: File, hosts: seq<int>) returns (r: Result<seq<SlotYaml>, ResolveError>)
    ensures r == Err(ActiveMissing) <==> forall i :: 0 <= i < |f.layouts| ==> f.layouts[i].name != f.active
    ensures r.Ok? <==> exists i :: IsActive(f, i) && Acceptable(f.layouts[i].slots, hosts)
    ensures r.Ok? ==> exists i :: IsActive(f, i) && r.value == f.layouts[i].slots
    ensures r.Err? && !r.error.ActiveMissing? ==> exists i :: IsActive(f, i) && Explains(r.error, f.layouts[i].slots, hosts)
  {
    var a := 0;
    while a < |f.layouts| && f.layouts[a].name != f.active
      invariant 0 <= a <= |f.layouts|
      invariant forall j :: 0 <= j < a ==> f.layouts[j].name != f.active
    {
      a := a + 1;
    }
    if a == |f.layouts| { return Err(ActiveMissing); }
    assert IsActive(f, a);
    r := Check(f.layouts[a].slots, hosts);
    if r.Err? {
      ExplainedIsDefect(r.error, f.layouts[a].slots, hosts);
    }
  }

  method Check(slots: seq<SlotYaml>, hosts: seq<int>) returns (r: Result<seq<SlotYaml>, ResolveError>)
    ensures r.Ok? ==> r.value == slots && Acceptable(slots, hosts)
    ensures r.Err? ==> !r.error.ActiveMissing? && Explains(r.error, slots, hosts)
  {
    var claimed: set<int> := {};
    var domains: map<string, nat> := map[];
    for i := 0 to |slots|
      invariant AcceptableUpTo(slots, i, hosts)
      invariant claimed == Members(Flat(slots, i))
      invariant DomainsAre(slots, i, domains)
    {
      var s := slots[i];
      if s.size <= 0 { return Err(SizeMismatch(i)); }
      if |s.gpus| == 0 { return Err(EmptyGpus(i)); }
      if s.size != |s.gpus| { return Err(SizeMismatch(i)); }
      var e;
      e, claimed := Claim(slots, i, hosts, claimed);
      if e.Some? { return Err(e.value); }
      DomainsNext(slots, i, domains);
      if s.domain != "" {
        if s.domain in domains { return Err(SharedDomain(s.domain, domains[s.domain], i)); }
        domains := domains[s.domain := i];
      }
    }
    return Ok(slots);
  }

  // ---- consequences of acceptance ----

  function TotalSize(slots: seq<SlotYaml>, n: nat): int
    requires n <= |slots|
  {
    if n == 0 then 0 else TotalSize(slots, n - 1) + slots[n - 1].size
  }

  lemma {:induction false} FlatLength(slots: seq<SlotYaml>, n: nat, hosts: seq<int>)
    requires n <= |slots|
    requires forall i :: 0 <= i < n ==> Sized(slots[i]) && Known(slots[i], hosts)
    ensures |Flat(slots, n)| == TotalSize(slots, n)
    ensures forall g :: g in Flat(slots, n) ==> g in hosts
  {
    if n > 0 {
      FlatLength(slots, n - 1, hosts);
    }
  }

  lemma {:induction false} NoDupCount(s: seq<int>)
    requires NoDup(s)
    ensures |Members(s)| == |s|
  {
    if s != [] {
      var p, x := s[..|s| - 1], s[|s| - 1];
      NoDupCount(p);
      assert Members(s) == Members(p) + {x};
    }
  }

  lemma SubsetCount(a: set<int>, b: set<int>)
    requires a <= b
    ensures |a| <= |b|
  {
    assert b == a + (b - a);
  }

  /** Pigeonhole: an accepted layout never promises more GPUs than the host has. */
  lemma Pigeonhole(slots: seq<SlotYaml>, hosts: seq<int>)
    requires Acceptable(slots, hosts)
    ensures TotalSize(slots, |slots|) <= |Members(hosts)|
  {
    FlatLength(slots, |slots|, hosts);
    NoDupCount(Flat(slots, |slots|));
    SubsetCount(Members(Flat(slots, |slots|)), Members(hosts));
  }

  // Where a slot's GPUs stand among all of the layout's.
  lemma FlatAt(slots: seq<SlotYaml>, i: nat, k: nat)
    requires i < |slots| && k < |slots[i].gpus|
    ensures |Flat(slots, i)| + k < |Flat(slots, i + 1)| <= |Flat(slots, |slots|)|
    ensures Flat(slots, |slots|)[|Flat(slots, i)| + k] == slots[i].gpus[k]
  {
    FlatPrefix(slots, i + 1, |slots|);
    assert Flat(slots, i + 1)[|Flat(slots, i)| + k] == slots[i].gpus[k];
  }

  /** Two slots of an accepted layout share no GPU. */
  lemma SlotsDisjoint(slots: seq<SlotYaml>, hosts: seq<int>, i: nat, j: nat, g: int)
    requires Acceptable(slots, hosts) && i < j < |slots|
    requires g in slots[i].gpus
    ensures g !in slots[j].gpus
  {
    FlatPrefix(slots, i + 1, j);
    var k :| 0 <= k < |slots[i].gpus| && slots[i].gpus[k] == g;
    FlatAt(slots, i, k);
    forall l | 0 <= l < |slots[j].gpus| ensures slots[j].gpus[l] != g {
      FlatAt(slots, j, l);
    }
  }

  // ---- Proto on the agent, toProfileSlots on main-api ----

  function SpecOf(s: SlotYaml, i: int): SlotTable.Spec {
    SlotTable.Spec(i, s.size, s.gpus, s.domain)
  }

  // What SyncFromProfile receives for a resolved layout.
  function Wire(slots: seq<SlotYaml>): (w: seq<SlotTable.Spec>)
    ensures |w| == |slots| && forall i :: 0 <= i < |slots| ==> w[i] == SpecOf(slots[i], i)
  {
    seq(|slots|, i requires 0 <= i < |slots| => SpecOf(slots[i], i))
  }

  method Proto(slots: seq<SlotYaml>) returns (w: seq<SlotTable.Spec>)
    ensures w == Wire(slots)
    ensures |w| == |slots| && forall i :: 0 <= i < |slots| ==>
              w[i].index == i && w[i].gpuCount == slots[i].size && w[i].gpus == slots[i].gpus && w[i].domain == slots[i].domain
  {
    w := [];
    for i := 0 to |slots|
      invariant |w| == i && forall k :: 0 <= k < i ==> w[k] == SpecOf(slots[k], k)
    {
      w := w + [SpecOf(slots[i], i)];
    }
  }

  method ToProfileSlots(wire: seq<SlotTable.Spec>) returns (w: seq<SlotTable.Spec>)
    ensures w == wire
  {
    w := [];
    for i := 0 to |wire|
      invariant w == wire[..i]
    {
      w := w + [SlotTable.Spec(wire[i].index, wire[i].gpuCount, wire[i].gpus, wire[i].domain)];
    }
  }

  /** A resolved layout always passes the table's constraints, and its slots name
      pairwise disjoint GPUs: this is what the allocator relies on. */
  lemma WireIsGood(slots: seq<SlotYaml>, hosts: seq<int>)
    requires Acceptable(slots, hosts)
    ensures SlotTable.GoodSpecs(Wire(slots))
    ensures forall i, j, g :: 0 <= i < j < |slots| && g in Wire(slots)[i].gpus ==> g !in Wire(slots)[j].gpus
    ensures forall i :: 0 <= i < |slots| ==> Wire(slots)[i].gpuCount == |Wire(slots)[i].gpus|
  {
    var w := Wire(slots);
    forall i | 0 <= i < |slots| ensures w[i].gpuCount > 0 && w[i].gpuCount == |w[i].gpus| {
      assert Sized(slots[i]);
    }
    forall i, j, g | 0 <= i < j < |slots| && g in w[i].gpus ensures g !in w[j].gpus {
      SlotsDisjoint(slots, hosts, i, j, g);
    }
  }
}
