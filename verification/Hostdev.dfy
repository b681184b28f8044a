/** Loops that turn every element of a list into another, stopping at the first error, and
    loops that turn some of them back. */
module ListMaps {
  import opened Wrappers

  function MapAll<A, B, E>(xs: seq<A>, n: nat, f: A -> Result<B, E>): Result<seq<B>, E>
    requires n <= |xs|
  {
    if n == 0 then Ok([])
    else
      match MapAll(xs, n - 1, f)
      case Err(e) => Err(e)
      case Ok(before) =>
        match f(xs[n - 1])
        case Err(e) => Err(e)
        case Ok(b) => Ok(before + [b])
  }

  function MapSome<A, B>(ys: seq<B>, n: nat, keep: B -> bool, g: B -> A): seq<A>
    requires n <= |ys|
  {
    if n == 0 then []
    else if keep(ys[n - 1]) then MapSome(ys, n - 1, keep, g) + [g(ys[n - 1])]
    else MapSome(ys, n - 1, keep, g)
  }

  function KeptAt<B>(ys: seq<B>, n: nat, keep: B -> bool): set<int>
    requires n <= |ys|
  {
    set i | 0 <= i < n && keep(ys[i])
  }

  /** As many are left as there are places whose element is kept. */
  lemma {:induction false} MapSomeCount<A, B>(ys: seq<B>, n: nat, keep: B -> bool, g: B -> A)
    requires n <= |ys|
    ensures |MapSome(ys, n, keep, g)| == |KeptAt(ys, n, keep)|
  {
    if n > 0 {
      MapSomeCount(ys, n - 1, keep, g);
      assert KeptAt(ys, n, keep) == KeptAt(ys, n - 1, keep) + if keep(ys[n - 1]) then {n - 1} else {};
    }
  }

  lemma {:induction false} ErrorSticks<A, B, E>(xs: seq<A>, m: nat, n: nat, f: A -> Result<B, E>)
    requires m <= n <= |xs| && MapAll(xs, m, f).Err?
    ensures MapAll(xs, n, f) == MapAll(xs, m, f)
  {
    if m < n { ErrorSticks(xs, m, n - 1, f); }
  }

  /** The list maps exactly when each of its elements does. */
  lemma {:induction false} MapAllIff<A, B, E>(xs: seq<A>, n: nat, f: A -> Result<B, E>)
    requires n <= |xs|
    ensures MapAll(xs, n, f).Ok? <==> forall i :: 0 <= i < n ==> f(xs[i]).Ok?
  {
    if n > 0 { MapAllIff(xs, n - 1, f); }
  }

  lemma {:induction false} MapAllAppend<A, B, E>(xs: seq<A>, x: A, n: nat, f: A -> Result<B, E>)
    requires n <= |xs|
    ensures MapAll(xs + [x], n, f) == MapAll(xs, n, f)
  {
    if n > 0 {
      MapAllAppend(xs, x, n - 1, f);
      assert (xs + [x])[n - 1] == xs[n - 1];
    }
  }

  lemma {:induction false} MapSomeAppend<A, B>(ys: seq<B>, y: B, n: nat, keep: B -> bool, g: B -> A)
    requires n <= |ys|
    ensures MapSome(ys + [y], n, keep, g) == MapSome(ys, n, keep, g)
  {
    if n > 0 {
      MapSomeAppend(ys, y, n - 1, keep, g);
      assert (ys + [y])[n - 1] == ys[n - 1];
    }
  }

  // g undoes f and keeps what f makes.
  ghost predicate Undoes<A(!new), B, E>(f: A -> Result<B, E>, keep: B -> bool, g: B -> A) {
    forall x :: f(x).Ok? ==> keep(f(x).value) && g(f(x).value) == x
  }

  lemma {:induction false} SomeOfAll<A(!new), B, E>(xs: seq<A>, n: nat, f: A -> Result<B, E>, keep: B -> bool, g: B -> A)
    requires n <= |xs| && Undoes(f, keep, g) && MapAll(xs, n, f).Ok?
    ensures var ys := MapAll(xs, n, f).value; MapSome(ys, |ys|, keep, g) == xs[..n]
  {
    if n > 0 {
      SomeOfAll(xs, n - 1, f, keep, g);
      var ys, y := MapAll(xs, n - 1, f).value, f(xs[n - 1]).value;
      MapSomeAppend(ys, y, |ys|, keep, g);
      assert (ys + [y])[|ys|] == y;
      assert xs[..n] == xs[..n - 1] + [xs[n - 1]];
    }
  }

  lemma {:induction false} AllOfSome<A, B, E>(ys: seq<B>, n: nat, f: A -> Result<B, E>, keep: B -> bool, g: B -> A)
    requires n <= |ys| && forall i :: 0 <= i < n ==> keep(ys[i]) && f(g(ys[i])) == Ok(ys[i])
    ensures var xs := MapSome(ys, n, keep, g); MapAll(xs, |xs|, f) == Ok(ys[..n])
  {
    if n > 0 {
      AllOfSome(ys, n - 1, f, keep, g);
      var xs, x := MapSome(ys, n - 1, keep, g), g(ys[n - 1]);
      MapAllAppend(xs, x, |xs|, f);
      assert (xs + [x])[|xs|] == x;
      assert ys[..n] == ys[..n - 1] + [ys[n - 1]];
    }
  }
}

/** libvirt/xml.go: PCI addresses to <hostdev> elements and back. The element is a record of its
    attributes; XML text is not modelled. */
module Hostdev {
  import opened Wrappers
  import opened ListMaps

  // ---- strings.Split and its inverse ----

  function Split(s: string, sep: char): (parts: seq<string>)
    ensures |parts| > 0
  {
    if s == "" then [""]
    else
      var rest := Split(s[1..], sep);
      if s[0] == sep then [""] + rest else [[s[0]] + rest[0]] + rest[1..]
  }

  function Join(parts: seq<string>, sep: char): string
    requires |parts| > 0
  {
    if |parts| == 1 then parts[0] else parts[0] + [sep] + Join(parts[1..], sep)
  }

  lemma {:induction false} JoinSplit(s: string, sep: char)
    ensures Join(Split(s, sep), sep) == s
  {
    if s != "" {
      var rest := Split(s[1..], sep);
      JoinSplit(s[1..], sep);
      if s[0] == sep {
        assert ([""] + rest)[1..] == rest;
      } else {
        assert ([[s[0]] + rest[0]] + rest[1..])[1..] == rest[1..];
      }
    }
  }

  // A piece without separators followed by the separator is the first part.
  lemma {:induction false} SplitFirst(p: string, s: string, sep: char)
    requires sep !in p
    ensures Split(p + [sep] + s, sep) == [p] + Split(s, sep)
  {
    if p == "" {
      assert (p + [sep] + s)[1..] == s;
    } else {
      SplitFirst(p[1..], s, sep);
      assert (p + [sep] + s)[1..] == p[1..] + [sep] + s;
      assert p == [p[0]] + p[1..];
    }
  }

  lemma {:induction false} SplitWhole(p: string, sep: char)
    requires sep !in p
    ensures Split(p, sep) == [p]
  {
    if p != "" {
      SplitWhole(p[1..], sep);
      assert p == [p[0]] + p[1..];
    }
  }

  lemma {:induction false} SplitPartsHaveNoSep(s: string, sep: char, i: nat)
    requires i < |Split(s, sep)|
    ensures sep !in Split(s, sep)[i]
  {
    if s != "" {
      if s[0] == sep {
        if i > 0 { SplitPartsHaveNoSep(s[1..], sep, i - 1); }
      } else {
        SplitPartsHaveNoSep(s[1..], sep, i);
      }
    }
  }

  // ---- strconv.ParseUint(f, 16, 32) ----

  predicate IsHexDigit(c: char) {
    '0' <= c <= '9' || 'a' <= c <= 'f' || 'A' <= c <= 'F'
  }

  function HexDigitValue(c: char): (d: nat)
    requires IsHexDigit(c)
    ensures d < 16
  {
    if c <= '9' then c as int - '0' as int
    else if c <= 'F' then c as int - 'A' as int + 10
    else c as int - 'a' as int + 10
  }

  // The value of the first n digits.
  function HexValue(f: string, n: nat): nat
    requires n <= |f| && forall i :: 0 <= i < n ==> IsHexDigit(f[i])
  {
    if n == 0 then 0 else 16 * HexValue(f, n - 1) + HexDigitValue(f[n - 1])
  }

  lemma {:induction false} HexValueOfPrefix(f: string, p: string, n: nat)
    requires n <= |p| && p <= f && forall i :: 0 <= i < n ==> IsHexDigit(p[i])
    ensures HexValue(f, n) == HexValue(p, n)
  {
    if n > 0 { HexValueOfPrefix(f, p, n - 1); }
  }

  /** The digits, in both cases, and what each is worth. */
  lemma HexDigits(c: char)
    ensures IsHexDigit(c) <==> c in "0123456789abcdef" || c in "0123456789ABCDEF"
    ensures IsHexDigit(c) ==>
              "0123456789abcdef"[HexDigitValue(c)] == c || "0123456789ABCDEF"[HexDigitValue(c)] == c
  {
    var lower, upper := "0123456789abcdef", "0123456789ABCDEF";
    if IsHexDigit(c) {
      var d := HexDigitValue(c);
      assert lower[d] == c || upper[d] == c;
    }
  }

  // What ParseUint accepts: digits only, at least one, and a value that fits.
  predicate IsHex32(f: string) {
    f != "" && (forall i :: 0 <= i < |f| ==> IsHexDigit(f[i])) && HexValue(f, |f|) < 0x1_0000_0000
  }

  lemma {:induction false} HexGrows(f: string, m: nat, n: nat)
    requires m <= n <= |f| && forall i :: 0 <= i < n ==> IsHexDigit(f[i])
    ensures HexValue(f, m) <= HexValue(f, n)
  {
    if m < n { HexGrows(f, m, n - 1); }
  }

  method ParseUint32(f: string) returns (r: Option<nat>)
    ensures r == if IsHex32(f) then Some(HexValue(f, |f|)) else None
  {
    if f == "" { return None; }
    var n := 0;
    for i := 0 to |f|
      invariant forall j :: 0 <= j < i ==> IsHexDigit(f[j])
      invariant n == HexValue(f, i) < 0x1_0000_0000
    {
      if !IsHexDigit(f[i]) { return None; }
      n := 16 * n + HexDigitValue(f[i]);
      if n >= 0x1_0000_0000 {
        if forall j :: 0 <= j < |f| ==> IsHexDigit(f[j]) { HexGrows(f, i + 1, |f|); }
        return None;
      }
    }
    return Some(n);
  }

  function Pow16(n: nat): nat {
    if n == 0 then 1 else 16 * Pow16(n - 1)
  }

  lemma {:induction false} HexZeros(f: string, n: nat)
    requires n <= |f| && forall i :: 0 <= i < n ==> IsHexDigit(f[i])
    ensures HexValue(f, n) == 0 <==> forall i :: 0 <= i < n ==> f[i] == '0'
  {
    if n > 0 { HexZeros(f, n - 1); }
  }

  lemma {:induction false} HexSplits(f: string, m: nat, n: nat)
    requires m <= n <= |f| && forall i :: 0 <= i < n ==> IsHexDigit(f[i])
    ensures HexValue(f, m) == 0 <==> HexValue(f, n) < Pow16(n - m)
  {
    if m < n {
      HexSplits(f, m, n - 1);
    }
  }

  /** A number fits 32 bits exactly when all but its last eight digits are zero. */
  lemma Hex32Iff(f: string)
    ensures IsHex32(f) <==>
            f != "" && (forall i :: 0 <= i < |f| ==> IsHexDigit(f[i])) && forall i :: 0 <= i < |f| - 8 ==> f[i] == '0'
  {
    if f != "" && forall i :: 0 <= i < |f| ==> IsHexDigit(f[i]) {
      var m: nat := if |f| < 8 then 0 else |f| - 8;
      HexSplits(f, m, |f|);
      HexZeros(f, m);
      PowersOf16(|f| - m);
    }
  }

  lemma PowersOf16(n: nat)
    requires n <= 8
    ensures Pow16(n) <= 0x1_0000_0000 && (n == 8 ==> Pow16(n) == 0x1_0000_0000)
  {
    assert Pow16(4) == 0x1_0000;
    assert Pow16(8) == 0x1_0000_0000;
  }

  lemma HexHasNone(f: string, c: char)
    requires IsHex32(f) && !IsHexDigit(c)
    ensures c !in f
  {}

  // ---- buildHostdev ----

  datatype Address = Address(domain: string, bus: string, slot: string, function_: string)

  datatype Element = Element(mode: string, kind: string, managed: string, driver: string, address: Address)

  datatype BuildError = MalformedAddress | MalformedSlot | NonHex

  // The PCI address with these components.
  function Pci(a: Address): string {
    a.domain + [':'] + a.bus + [':'] + (a.slot + ['.'] + a.function_)
  }

  predicate IsHexAddress(a: Address) {
    IsHex32(a.domain) && IsHex32(a.bus) && IsHex32(a.slot) && IsHex32(a.function_)
  }

  function Prefixed(a: Address): Address {
    Address("0x" + a.domain, "0x" + a.bus, "0x" + a.slot, "0x" + a.function_)
  }

  function Passthrough(a: Address): Element {
    Element("subsystem", "pci", "yes", "vfio", Prefixed(a))
  }

  function Components(pci: string): Result<Address, BuildError> {
    var parts := Split(pci, ':');
    if |parts| != 3 then Err(MalformedAddress)
    else
      var devFn := Split(parts[2], '.');
      if |devFn| != 2 then Err(MalformedSlot)
      else
        var a := Address(parts[0], parts[1], devFn[0], devFn[1]);
        if IsHexAddress(a) then Ok(a) else Err(NonHex)
  }

  function Build(pci: string): Result<Element, BuildError> {
    match Components(pci)
    case Err(e) => Err(e)
    case Ok(a) => Ok(Passthrough(a))
  }

  method BuildHostdev(pci: string) returns (r: Result<Element, BuildError>)
    ensures r == Build(pci)
  {
    var parts := Split(pci, ':');
    if |parts| != 3 { return Err(MalformedAddress); }
    var devFn := Split(parts[2], '.');
    if |devFn| != 2 { return Err(MalformedSlot); }
    var fs := [parts[0], parts[1], devFn[0], devFn[1]];
    for i := 0 to |fs|
      invariant forall j :: 0 <= j < i ==> IsHex32(fs[j])
    {
      var v := ParseUint32(fs[i]);
      if v.None? {
        assert !IsHexAddress(Address(fs[0], fs[1], fs[2], fs[3]));
        return Err(NonHex);
      }
    }
    assert IsHex32(fs[0]) && IsHex32(fs[1]) && IsHex32(fs[2]) && IsHex32(fs[3]);
    return Ok(Passthrough(Address(parts[0], parts[1], devFn[0], devFn[1])));
  }

  // A managed vfio device whose address has the parts of pci, each with the prefix.
  ghost predicate Carries(e: Element, pci: string) {
    var a := e.address;
    && e.mode == "subsystem" && e.kind == "pci" && e.managed == "yes" && e.driver == "vfio"
    && "0x" <= a.domain && "0x" <= a.bus && "0x" <= a.slot && "0x" <= a.function_
    && pci == a.domain[2..] + ":" + a.bus[2..] + ":" + a.slot[2..] + "." + a.function_[2..]
  }

  /** What is built for an accepted address. */
  lemma BuiltCarries(pci: string)
    requires Build(pci).Ok?
    ensures Carries(Build(pci).value, pci)
  {
    var a := Components(pci).value;
    AcceptsIff(pci, a);
    assert Prefixed(a).domain[2..] == a.domain && Prefixed(a).bus[2..] == a.bus;
    assert Prefixed(a).slot[2..] == a.slot && Prefixed(a).function_[2..] == a.function_;
    assert Pci(a) == a.domain + ":" + a.bus + ":" + a.slot + "." + a.function_;
  }

  /** The builder accepts exactly the strings d:b:s.f of four hexadecimal numbers below 2^32. */
  lemma AcceptsIff(pci: string, a: Address)
    ensures Components(pci) == Ok(a) <==> IsHexAddress(a) && pci == Pci(a)
  {
    if IsHexAddress(a) && pci == Pci(a) {
      var last := a.slot + ['.'] + a.function_;
      HexHasNone(a.domain, ':');
      HexHasNone(a.bus, ':');
      HexHasNone(a.slot, ':');
      HexHasNone(a.function_, ':');
      HexHasNone(a.slot, '.');
      HexHasNone(a.function_, '.');
      assert pci == a.domain + [':'] + (a.bus + [':'] + last);
      SplitFirst(a.domain, a.bus + [':'] + last, ':');
      SplitFirst(a.bus, last, ':');
      SplitWhole(last, ':');
      SplitFirst(a.slot, a.function_, '.');
      SplitWhole(a.function_, '.');
    }
    if Components(pci) == Ok(a) {
      var parts := Split(pci, ':');
      JoinSplit(pci, ':');
      JoinSplit(parts[2], '.');
      JoinThree(parts, ':');
      JoinTwo(Split(parts[2], '.'), '.');
    }
  }

  lemma JoinTwo(p: seq<string>, sep: char)
    requires |p| == 2
    ensures Join(p, sep) == p[0] + [sep] + p[1]
  {}

  lemma JoinThree(p: seq<string>, sep: char)
    requires |p| == 3
    ensures Join(p, sep) == p[0] + [sep] + p[1] + [sep] + p[2]
  {
    JoinTwo(p[1..], sep);
  }

  // ---- the element list and its parser ----

  // BuildDomainXML's hostdev loop.
  method BuildHostdevs(pcis: seq<string>) returns (r: Result<seq<Element>, BuildError>)
    ensures r == MapAll(pcis, |pcis|, Build)
  {
    var out := [];
    for i := 0 to |pcis|
      invariant MapAll(pcis, i, Build) == Ok(out)
    {
      var hd := BuildHostdev(pcis[i]);
      if hd.Err? {
        ErrorSticks(pcis, i + 1, |pcis|, Build);
        return Err(hd.error);
      }
      out := out + [hd.value];
    }
    return Ok(out);
  }

  // strings.TrimPrefix(s, "0x")
  function TrimHex(s: string): string {
    if |s| >= 2 && s[0] == '0' && s[1] == 'x' then s[2..] else s
  }

  function Trimmed(a: Address): Address {
    Address(TrimHex(a.domain), TrimHex(a.bus), TrimHex(a.slot), TrimHex(a.function_))
  }

  predicate IsPassthrough(e: Element) {
    e.mode == "subsystem" && e.kind == "pci"
  }

  // The address an element stands for.
  function Parse(e: Element): string {
    Pci(Trimmed(e.address))
  }

  method ParsePassthroughPci(es: seq<Element>) returns (out: seq<string>)
    ensures out == MapSome(es, |es|, IsPassthrough, Parse)
    ensures |out| == |set i | 0 <= i < |es| && es[i].mode == "subsystem" && es[i].kind == "pci"|
  {
    out := [];
    for i := 0 to |es|
      invariant out == MapSome(es, i, IsPassthrough, Parse)
    {
      if es[i].mode != "subsystem" || es[i].kind != "pci" { continue; }
      var a := es[i].address;
      out := out + [Pci(Address(TrimHex(a.domain), TrimHex(a.bus), TrimHex(a.slot), TrimHex(a.function_)))];
    }
    MapSomeCount(es, |es|, IsPassthrough, Parse);
    assert (set i | 0 <= i < |es| && es[i].mode == "subsystem" && es[i].kind == "pci") == KeptAt(es, |es|, IsPassthrough);
  }

  // The widths of a sysfs address: 4, 2, 2 and 1 digits.
  predicate HasSysfsWidths(a: Address) {
    |a.domain| == 4 && |a.bus| == 2 && |a.slot| == 2 && |a.function_| == 1
  }

  // An attribute of this width, written with or without the prefix.
  predicate HasWidth(s: string, width: nat) {
    if "0x" <= s then |s| == width + 2 else |s| == width
  }

  /** trimHex pads nothing: what is read has the sysfs widths exactly when each attribute has
      its width already, the prefix apart. */
  lemma WidthsIff(a: Address)
    ensures HasSysfsWidths(Trimmed(a)) <==>
            HasWidth(a.domain, 4) && HasWidth(a.bus, 2) && HasWidth(a.slot, 2) && HasWidth(a.function_, 1)
  {
  }

  /** So an address the builder accepts comes back with the sysfs widths exactly when it was
      given with them ... */
  lemma BuiltWidthsIff(pci: string, a: Address)
    requires Components(pci) == Ok(a)
    ensures HasSysfsWidths(Trimmed(Build(pci).value.address)) <==> HasSysfsWidths(a)
  {
    assert Trimmed(Prefixed(a)) == a;
  }

  /** ... and this one is accepted, and comes back as short as it was. */
  lemma ShortStaysShort()
    ensures Build("0:1:2.3").Ok? && Parse(Build("0:1:2.3").value) == "0:1:2.3"
    ensures !HasSysfsWidths(Trimmed(Build("0:1:2.3").value.address))
  {
    var a := Address("0", "1", "2", "3");
    assert IsHexAddress(a) by {
      assert HexValue("0", 0) == HexValue("1", 0) == HexValue("2", 0) == HexValue("3", 0) == 0;
    }
    assert Pci(a) == "0:1:2.3";
    AcceptsIff("0:1:2.3", a);
    assert Trimmed(Prefixed(a)) == a;
  }

  lemma ParseUndoesBuild()
    ensures Undoes(Build, IsPassthrough, Parse)
  {
    forall pci | Build(pci).Ok? ensures IsPassthrough(Build(pci).value) && Parse(Build(pci).value) == pci {
      var a := Components(pci).value;
      AcceptsIff(pci, a);
      assert Trimmed(Prefixed(a)) == a;
    }
  }

  /** Parsing what was built gives back the same addresses in the same order. */
  lemma ParseBuilt(pcis: seq<string>)
    requires MapAll(pcis, |pcis|, Build).Ok?
    ensures var es := MapAll(pcis, |pcis|, Build).value; MapSome(es, |es|, IsPassthrough, Parse) == pcis
  {
    ParseUndoesBuild();
    SomeOfAll(pcis, |pcis|, Build, IsPassthrough, Parse);
    assert pcis[..|pcis|] == pcis;
  }

  // An element as the builder writes it.
  predicate Emitted(e: Element) {
    IsHexAddress(Trimmed(e.address)) && e == Passthrough(Trimmed(e.address))
  }

  lemma BuildUndoesParse(e: Element)
    requires Emitted(e)
    ensures IsPassthrough(e) && Build(Parse(e)) == Ok(e)
  {
    AcceptsIff(Parse(e), Trimmed(e.address));
  }

  /** And building what was parsed gives back the same elements. */
  lemma BuildParsed(es: seq<Element>)
    requires forall i :: 0 <= i < |es| ==> Emitted(es[i])
    ensures var pcis := MapSome(es, |es|, IsPassthrough, Parse); MapAll(pcis, |pcis|, Build) == Ok(es)
  {
    forall i | 0 <= i < |es| ensures IsPassthrough(es[i]) && Build(Parse(es[i])) == Ok(es[i]) {
      BuildUndoesParse(es[i]);
    }
    AllOfSome(es, |es|, Build, IsPassthrough, Parse);
    assert es[..|es|] == es;
  }
}
