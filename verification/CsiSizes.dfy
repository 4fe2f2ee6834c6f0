/** Sizes from a CSI request to the array and back: the ceiling on creation, the floor on expansion, and
    what the array holds in the end. */
module CsiSizes {
  import opened Wrappers
  import opened Text
  import opened Sizes
  import opened VdiskArray
  import opened As18000
  import opened AaExtend
  import opened AaScript
  import opened AaRuns
  import opened ExtendSizes
  import opened ArrayInvariant

  /** A 64-bit sum wraps around. */
  function Wrap64(n: int): int { (n - MIN_INT64) % (2 * (MAX_INT64 + 1)) + MIN_INT64 }

  /** Integer division rounds toward zero. */
  function Quotient(n: int, d: int): int
    requires d > 0
  {
    if n >= 0 then n / d else 0 - (0 - n) / d
  }

  /** The GiB a volume is created with, for a request of c bytes. */
  function CreateGib(c: int): int { Quotient(Wrap64(c + GIB - 1), GIB) }

  /** The GiB a volume is to be expanded to, for a request of c bytes. */
  function ExpandGib(c: int): int { Quotient(Quotient(Quotient(c, 1024), 1024), 1024) }

  /** The size a volume is created with is the request rounded up to GiB, exactly as long as the rounding
      does not leave 64 bits. */
  lemma {:induction false} CreateGibLaw(c: int)
    requires 0 <= c <= MAX_INT64
    ensures c <= CreateGib(c) * GIB < c + GIB <==> c <= MAX_INT64 + 1 - GIB
  {
    var n := c + GIB - 1;
    if n <= MAX_INT64 {
      assert Wrap64(n) == n;
      assert n == n / GIB * GIB + n % GIB;
    } else {
      var m := n - 2 * (MAX_INT64 + 1);
      assert n - MIN_INT64 == (m - MIN_INT64) + 2 * (MAX_INT64 + 1) && 0 <= m - MIN_INT64 < 2 * (MAX_INT64 + 1);
      assert Wrap64(n) == m && m < 0;
      assert CreateGib(c) <= 0;
    }
  }

  lemma {:induction false} DivideThrice(c: nat)
    ensures c / 1024 / 1024 / 1024 == c / GIB
  {
    var a := c / 1024;
    var b := a / 1024;
    var q := b / 1024;
    assert c == a * 1024 + c % 1024 && a == b * 1024 + a % 1024 && b == q * 1024 + b % 1024;
    assert c == q * GIB + (b % 1024) * 1048576 + (a % 1024) * 1024 + c % 1024;
    assert c == c / GIB * GIB + c % GIB;
  }

  /** Expansion rounds the request down, a negative one up. */
  lemma {:induction false} ExpandGibLaw(c: int)
    ensures c >= 0 ==> ExpandGib(c) == c / GIB && ExpandGib(c) * GIB <= c < (ExpandGib(c) + 1) * GIB
    ensures c < 0 ==> (ExpandGib(c) - 1) * GIB < c <= ExpandGib(c) * GIB <= 0
  {
    if c >= 0 {
      DivideThrice(c);
      assert c == c / GIB * GIB + c % GIB;
    } else {
      var m := 0 - c;
      DivideThrice(m);
      assert m == m / GIB * GIB + m % GIB;
      assert ExpandGib(c) == 0 - m / GIB;
    }
  }

  /** strconv.FormatInt in base 10. */
  function FormatInt(n: int): string { if n >= 0 then Decimal(n) else "-" + Decimal(0 - n) }

  lemma {:induction false} AtoiOfFormat(n: int)
    requires MIN_INT64 <= n <= MAX_INT64
    ensures Atoi(FormatInt(n)) == ParsedInt(n, true)
  {
    if n >= 0 {
      AtoiOfPrinted(n);
    } else {
      ValueOfDecimal(0 - n);
      assert FormatInt(n)[1..] == Decimal(0 - n);
    }
  }

  lemma {:induction false} LastIsFound(vs: seq<Vdisk>, v: Vdisk, k: nat)
    requires k <= |vs| && !Exists(vs, v.name)
    ensures VdiskPosition(vs + [v], v.name, k) == |vs|
    decreases |vs| - k
  {
    if k < |vs| {
      assert vs[k] in vs;
      LastIsFound(vs, v, k + 1);
    }
  }

  /** A basic volume created for c bytes is there, extendable, and holds them with less than a GiB over. */
  lemma {:induction false} CreatedForRequest(s: State, layout: Layout, name: string, c: int, o: Options)
    requires Sound(s) && 0 <= c <= MAX_INT64 + 1 - GIB && o.level != Some("aa") && name !in layout
    requires CreateGib(c) >= 0 && CreateVolume(s, name, CreateGib(c), o).1.Ok?
    ensures var t := CreateVolume(s, name, CreateGib(c), o).0;
      && Exists(t.vdisks, name) && Extendable(t, layout, name, name, {name})
      && SizeOf(t.vdisks, name) == CreateGib(c) * GIB
      && c <= SizeOf(t.vdisks, name) < c + GIB
  {
    hide NextVdiskId, Wrap64, CreateGib, ParseStrSize;
    CreateGibLaw(c);
    var command := CreateCommand(name, CreateGib(c), o).value;
    var v := Vdisk(NextVdiskId(s.vdisks), name, name, command.pool, command.iogrp, CreateGib(c) * GIB);
    var t := CreateVolume(s, name, CreateGib(c), o).0;
    assert t.vdisks == s.vdisks + [v] && t.relations == s.relations;
    AppendDistinct(s.vdisks, v);
    LastIsFound(s.vdisks, v, 0);
    assert v in t.vdisks;
    assert FindVdisk(t.vdisks, name) == Some(v);
  }

  lemma {:induction false} ExpandArithmetic(c: int, g: nat)
    requires MIN_INT64 <= c <= MAX_INT64
    ensures var n := ExpandGib(c);
      && MIN_INT64 <= n <= MAX_INT64
      && (c >= 0 ==> n * GIB <= c < n * GIB + GIB && (n < g <==> c < g * GIB))
      && (n >= g ==> g * GIB <= n * GIB && (c <= n * GIB <==> c < 0 || c % GIB == 0))
    ensures (g * GIB) % GIB == 0 && g * GIB / GIB == g
  {
    hide ExpandGib;
    ExpandGibLaw(c);
    WholeSum(0, g);
    assert c == c / GIB * GIB + c % GIB;
  }

  /** Expanding a whole-GiB volume to c bytes: the size comparison refuses exactly the requests below its
      size, and a success leaves the largest whole-GiB size that is not above c, which holds c bytes exactly
      when c is whole GiB. */
  lemma {:induction false} CsiExpand(d: Driver, layout: Layout, volume: string, master: string, names: set<string>,
                                     g: nat, c: int, env: Env)
    requires Extendable(d.store, layout, volume, master, names) && Exists(d.store.vdisks, master)
    requires SizeOf(d.store.vdisks, master) == g * GIB && MIN_INT64 <= c <= MAX_INT64
    ensures var (after, r) := ExtendVolume(d, volume, FormatInt(ExpandGib(c)), env);
      && (!d.barrier && Up(d.store) ==> (r == Err(NotLarger) <==> ExpandGib(c) < g))
      && (c >= 0 ==> (ExpandGib(c) < g <==> c < g * GIB))
      && (r.Ok? ==>
            && Exists(after.store.vdisks, master)
            && SizeOf(after.store.vdisks, master) == ExpandGib(c) * GIB
            && (c >= 0 ==> SizeOf(after.store.vdisks, master) <= c < SizeOf(after.store.vdisks, master) + GIB)
            && g * GIB <= SizeOf(after.store.vdisks, master)
            && (c <= SizeOf(after.store.vdisks, master) <==> c < 0 || c % GIB == 0))
  {
    hide ExtendVolume, Extendable, Exists, SizeOf, FormatInt, ExpandGib;
    var n := ExpandGib(c);
    ExpandArithmetic(c, g);
    AtoiOfFormat(n);
    if !d.barrier && Up(d.store) { Refusal(d, layout, volume, master, names, g, n, env); }
    if ExtendVolume(d, volume, FormatInt(n), env).1.Ok? {
      ExtendSizeLaw(d, layout, volume, master, names, FormatInt(n), env, env);
      ExtendGrows(d, layout, volume, master, names, FormatInt(n), env);
      hide Atoi;
    }
  }

  lemma {:induction false} Refusal(d: Driver, layout: Layout, volume: string, master: string, names: set<string>,
                                   g: nat, n: int, env: Env)
    requires Extendable(d.store, layout, volume, master, names) && Exists(d.store.vdisks, master)
    requires SizeOf(d.store.vdisks, master) == g * GIB && Atoi(FormatInt(n)).value == n
    requires !d.barrier && Up(d.store)
    ensures ExtendVolume(d, volume, FormatInt(n), env).1 == Err(NotLarger) <==> n < g
  {
    hide BuildVolumeInfos, VolumeRows, MemberRow, CheckExtend, Grown, ParseStrSize, Atoi, Extendable, SizeOf, FormatInt;
    var s := Spend(d.store);
    SameExtendable(d.store, s, layout, volume, master, names);
    MasterRead(s, layout, volume, master, names);
    MasterSizeRead(s, master);
    assert g * GIB / GIB == g;
    var infos := BuildVolumeInfos(VolumeRows(s, volume)).value;
    if n > g { NotRefusedLater(d, s, infos, n - g, env); }
  }

  /** The check and the growth itself never answer that the size is not larger. */
  lemma {:induction false} NotRefusedLater(d: Driver, s: State, infos: Infos, addition: nat, env: Env)
    ensures CheckExtend(s, infos, addition, env).1 != Err(NotLarger)
    ensures forall t :: Grown(d.(store := t), infos, addition).1 != Err(NotLarger)
  {
    hide Execute, RunScript, FreeGib;
  }
}
