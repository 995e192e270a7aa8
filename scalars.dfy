/** The bookkeeping of DiagnosticScalar: `compute` rebuilds the list of
    named scalars (`out_list`) on the master, `getScalar` looks a name up in
    it, `write` appends it to the scalar log and `run` schedules both.  The
    physical values (charges, energies, Poynting fluxes) arrive as computed
    and already reduced over the ranks; what is modelled is which names the
    list holds, in which order, with which of the given values, and the
    per-field extrema scan that feeds it. */
module Scalars {
  import opened Extrema

  /** One `pair<string,double>` of `out_list`. */
  datatype Entry = Entry(key: string, value: real)

  /** A species after the reduction over ranks: the sum of its particles'
      charges, its kinetic energy and its particle count. */
  datatype Species = Species(name: string, chargeSum: real, energy: real, count: nat)

  /** A field as the extrema scan sees it: its values (flat, x slowest), its
      staggering per axis and its size per axis. */
  datatype FieldData = FieldData(name: string, data: seq<real>, isDual: seq<nat>, dims: seq<nat>)

  /** What one call of `compute` reads.  `emFields` are Ex, Ey, Ez, Bx_m,
      By_m, Bz_m with their reduced energies `emEnergy`; `sources` are Jx,
      Jy, Jz, rho; `poyInf`/`poySup` are the reduced Poynting fluxes through
      the lower and upper faces; `istart`/`bufsize` locate the patch's own
      cells per axis and staggering. */
  datatype Snapshot = Snapshot(
    species: seq<Species>,
    emFields: seq<FieldData>,
    emEnergy: seq<real>,
    sources: seq<FieldData>,
    poyInf: seq<real>,
    poySup: seq<real>,
    istart: seq<seq<nat>>,
    bufsize: seq<seq<nat>>)

  /** One line of the scalar log: the timestep and the values of `out_list`
      in order. */
  datatype Line = Line(time: int, values: seq<real>)

  // ---------------------------------------------------------------------
  // Lookup

  /** The value of the first entry named k, 0.0 when there is none. */
  function Lookup(l: seq<Entry>, k: string): real
  {
    if |l| == 0 then 0.0 else if l[0].key == k then l[0].value else Lookup(l[1..], k)
  }

  predicate HasKey(l: seq<Entry>, k: string) {
    exists i :: 0 <= i < |l| && l[i].key == k
  }

  /** FIRST MATCH.  Lookup returns the value of the first entry whose key is
      k, and 0.0 when no entry has key k. */
  lemma {:induction false} LookupFirstMatch(l: seq<Entry>, k: string)
    ensures HasKey(l, k) ==> exists i :: 0 <= i < |l| && l[i].key == k && Lookup(l, k) == l[i].value
                                         && forall j :: 0 <= j < i ==> l[j].key != k
    ensures !HasKey(l, k) ==> Lookup(l, k) == 0.0
  {
    if |l| > 0 {
      LookupFirstMatch(l[1..], k);
      HasKeyCons(l, k);
      if l[0].key != k && HasKey(l, k) {
        var i :| 0 <= i < |l| - 1 && l[1..][i].key == k && Lookup(l[1..], k) == l[1..][i].value
                 && forall j :: 0 <= j < i ==> l[1..][j].key != k;
        assert forall j :: 1 <= j < i + 1 ==> l[j].key == l[1..][j - 1].key;
        assert l[i + 1].key == k && Lookup(l, k) == l[i + 1].value;
      }
    }
  }

  /** A lookup in a concatenation looks in the second part only when the
      first part lacks the key. */
  lemma {:induction false} LookupAppend(a: seq<Entry>, b: seq<Entry>, k: string)
    ensures HasKey(a + b, k) <==> HasKey(a, k) || HasKey(b, k)
    ensures Lookup(a + b, k) == if HasKey(a, k) then Lookup(a, k) else Lookup(b, k)
  {
    if |a| == 0 {
      assert a + b == b;
    } else {
      assert (a + b)[1..] == a[1..] + b;
      LookupAppend(a[1..], b, k);
      HasKeyCons(a, k);
      HasKeyCons(a + b, k);
    }
    if HasKey(b, k) {
      var i :| 0 <= i < |b| && b[i].key == k;
      assert (a + b)[|a| + i].key == k;
    }
  }

  lemma HasKeyCons(l: seq<Entry>, k: string)
    requires |l| > 0
    ensures HasKey(l, k) <==> l[0].key == k || HasKey(l[1..], k)
  {
    if HasKey(l[1..], k) {
      var i :| 0 <= i < |l| - 1 && l[1..][i].key == k;
      assert l[i + 1].key == k;
    }
    if HasKey(l, k) && l[0].key != k {
      var i :| 0 <= i < |l| && l[i].key == k;
      assert l[1..][i - 1].key == k;
    }
  }

  function Keys(l: seq<Entry>): (r: seq<string>)
    ensures |r| == |l| && forall i :: 0 <= i < |l| ==> r[i] == l[i].key
  {
    seq(|l|, i requires 0 <= i < |l| => l[i].key)
  }

  function Values(l: seq<Entry>): (r: seq<real>)
    ensures |r| == |l| && forall i :: 0 <= i < |l| ==> r[i] == l[i].value
  {
    seq(|l|, i requires 0 <= i < |l| => l[i].value)
  }

  // ---------------------------------------------------------------------
  // The list compute builds

  /** The mean charge reported for a species: the charge sum divided by the
      particle count, or the (zero) sum itself for an empty species. */
  function MeanCharge(s: Species): real {
    if s.count != 0 then s.chargeSum / (s.count as real) else s.chargeSum
  }

  /** The Z_, E_ and N_ entries of one species. */
  function Triple(s: Species): seq<Entry> {
    [Entry("Z_" + s.name, MeanCharge(s)), Entry("E_" + s.name, s.energy), Entry("N_" + s.name, s.count as real)]
  }

  /** Z_, E_ and N_ entries of each species, in species order. */
  function SpeciesEntries(sp: seq<Species>): (r: seq<Entry>)
    ensures |r| == 3 * |sp|
  {
    if |sp| == 0 then []
    else
      var s := sp[|sp| - 1];
      SpeciesEntries(sp[..|sp| - 1]) + Triple(s)
  }

  /** One more species extends the entries by its triple and the energy by
      its own. */
  lemma SpeciesPrefix(sp: seq<Species>, i: nat)
    requires i < |sp|
    ensures SpeciesEntries(sp[..i + 1]) == SpeciesEntries(sp[..i]) + Triple(sp[i])
    ensures ParticleEnergy(sp[..i + 1]) == ParticleEnergy(sp[..i]) + sp[i].energy
  {
    assert sp[..i + 1][..i] == sp[..i];
  }

  /** The species energies added up in species order. */
  function ParticleEnergy(sp: seq<Species>): real {
    if |sp| == 0 then 0.0 else ParticleEnergy(sp[..|sp| - 1]) + sp[|sp| - 1].energy
  }

  /** One `<name>_U` entry per electromagnetic field. */
  function EnergyEntries(fs: seq<FieldData>, u: seq<real>): (r: seq<Entry>)
    requires |u| == |fs|
    ensures |r| == |fs|
    ensures forall t :: 0 <= t < |fs| ==> r[t] == Entry(fs[t].name + "_U", u[t])
  {
    if |fs| == 0 then []
    else
      var n := |fs| - 1;
      EnergyEntries(fs[..n], u[..n]) + [Entry(fs[n].name + "_U", u[n])]
  }

  function Total(u: seq<real>): real {
    if |u| == 0 then 0.0 else Total(u[..|u| - 1]) + u[|u| - 1]
  }

  /** Min, MinCell, Max and MaxCell of each field, four entries per field. */
  function ExtremaEntries(names: seq<string>, minis: seq<ValIndex>, maxis: seq<ValIndex>): (r: seq<Entry>)
    requires |minis| == |names| && |maxis| == |names|
    ensures |r| == 4 * |names|
  {
    if |names| == 0 then []
    else
      var n := |names| - 1;
      ExtremaEntries(names[..n], minis[..n], maxis[..n])
        + [Entry(names[n] + "Min", minis[n].val), Entry(names[n] + "MinCell", minis[n].index as real),
           Entry(names[n] + "Max", maxis[n].val), Entry(names[n] + "MaxCell", maxis[n].index as real)]
  }

  /** `Poy_inf_x`, `Poy_sup_y`, ...: the face (j = 0 lower, 1 upper) and the
      axis of flux i, every i from 2 on naming z. */
  function PoyKey(j: int, i: int): string {
    "Poy_" + (if j == 0 then "inf" else "sup") + "_" + (if i == 0 then "x" else if i == 1 then "y" else "z")
  }

  function PoyEntries(j: int, p: seq<real>): (r: seq<Entry>)
    ensures |r| == |p|
    ensures forall i :: 0 <= i < |p| ==> r[i] == Entry(PoyKey(j, i), p[i])
  {
    if |p| == 0 then []
    else
      var n := |p| - 1;
      PoyEntries(j, p[..n]) + [Entry(PoyKey(j, n), p[n])]
  }

  /** The names of the ten fields of the extrema scan, in scan order. */
  function Names(fs: seq<FieldData>): (r: seq<string>)
    ensures |r| == |fs| && forall t :: 0 <= t < |fs| ==> r[t] == fs[t].name
  {
    seq(|fs|, t requires 0 <= t < |fs| => fs[t].name)
  }

  /** `Energy_Balance / Total_Energy`, taken as 0.0 when the total is 0. */
  function Ratio(a: real, b: real): real {
    if b == 0.0 then 0.0 else a / b
  }

  /** A field the scan can read: non-empty, with bounds defined and a scan
      box inside its values. */
  ghost predicate Scannable(fd: FieldData, istart: seq<seq<nat>>, bufsize: seq<seq<nat>>) {
    && |fd.data| > 0
    && BoundsDefined(fd.isDual, istart, bufsize, fd.dims)
    && InField(fd.data, Bounds(fd.isDual, istart, bufsize, fd.dims))
  }

  ghost predicate Readable(snap: Snapshot) {
    && |snap.emEnergy| == |snap.emFields|
    && forall t :: 0 <= t < |snap.emFields + snap.sources| ==>
         Scannable((snap.emFields + snap.sources)[t], snap.istart, snap.bufsize)
  }

  /** The extremes one rank finds in one field. */
  function FieldExtremes(fd: FieldData, istart: seq<seq<nat>>, bufsize: seq<seq<nat>>): Extremes
    requires Scannable(fd, istart, bufsize)
  {
    Scan(fd.data, Visited(Bounds(fd.isDual, istart, bufsize, fd.dims)))
  }

  function LocalExtremes(fields: seq<FieldData>, istart: seq<seq<nat>>, bufsize: seq<seq<nat>>): (r: seq<Extremes>)
    requires forall t :: 0 <= t < |fields| ==> Scannable(fields[t], istart, bufsize)
    ensures |r| == |fields| && forall t :: 0 <= t < |fields| ==> r[t] == FieldExtremes(fields[t], istart, bufsize)
  {
    seq(|fields|, t requires 0 <= t < |fields| => FieldExtremes(fields[t], istart, bufsize))
  }

  function Mins(es: seq<Extremes>): (r: seq<ValIndex>)
    ensures |r| == |es| && forall t :: 0 <= t < |es| ==> r[t] == es[t].minVal
  {
    seq(|es|, t requires 0 <= t < |es| => es[t].minVal)
  }

  function Maxs(es: seq<Extremes>): (r: seq<ValIndex>)
    ensures |r| == |es| && forall t :: 0 <= t < |es| ==> r[t] == es[t].maxVal
  {
    seq(|es|, t requires 0 <= t < |es| => es[t].maxVal)
  }

  /** The six summary entries, in the order the front insertions leave them. */
  function Header(norm: real, balance: real, total: real, part: real, fields: real, poy: real): seq<Entry> {
    [Entry("Ebal_norm", norm), Entry("Ebalance", balance), Entry("Etot", total),
     Entry("Eparticles", part), Entry("EFields", fields), Entry("Poynting", poy)]
  }

  /** Six insertions at the front leave the last one inserted first. */
  lemma FrontInserts(body: seq<Entry>, norm: real, balance: real, total: real, part: real, fields: real, poy: real)
    ensures [Entry("Ebal_norm", norm)] + ([Entry("Ebalance", balance)] + ([Entry("Etot", total)] + ([Entry("Eparticles", part)]
              + ([Entry("EFields", fields)] + ([Entry("Poynting", poy)] + body)))))
            == Header(norm, balance, total, part, fields, poy) + body
  {
  }

  /** The entries pushed one by one, before the front insertions: the
      extrema entries only when the reduced lists have one entry per field. */
  function Body(snap: Snapshot, minis: seq<ValIndex>, maxis: seq<ValIndex>): seq<Entry>
    requires |snap.emEnergy| == |snap.emFields|
  {
    var fields := snap.emFields + snap.sources;
    SpeciesEntries(snap.species)
      + EnergyEntries(snap.emFields, snap.emEnergy)
      + (if |minis| == |maxis| && |minis| == |fields| then ExtremaEntries(Names(fields), minis, maxis) else [])
      + PoyEntries(0, snap.poyInf) + PoyEntries(1, snap.poySup)
  }

  /** `out_list` after `compute`, given the stored energy e0 at time zero
      and the master's reduced extremes.  Nothing of the list before the
      call enters it. */
  function ComputedList(isMaster: bool, e0: real, snap: Snapshot, minis: seq<ValIndex>, maxis: seq<ValIndex>): (r: seq<Entry>)
    requires |snap.emEnergy| == |snap.emFields|
    ensures !isMaster ==> r == []
  {
    if !isMaster then []
    else
      var part, em := ParticleEnergy(snap.species), Total(snap.emEnergy);
      var poy := Total(snap.poyInf) + Total(snap.poySup);
      var total := part + em;
      var balance := total - (e0 + poy);
      Header(Ratio(balance, total), balance, total, part, em, poy) + Body(snap, minis, maxis)
  }

  lemma ComputedOnMaster(e0: real, snap: Snapshot, part: real, em: real, poy: real, total: real, balance: real, norm: real,
                         minis: seq<ValIndex>, maxis: seq<ValIndex>)
    requires |snap.emEnergy| == |snap.emFields|
    requires part == ParticleEnergy(snap.species) && em == Total(snap.emEnergy) && poy == Total(snap.poyInf) + Total(snap.poySup)
    requires total == part + em && balance == total - (e0 + poy) && norm == Ratio(balance, total)
    ensures ComputedList(true, e0, snap, minis, maxis) == Header(norm, balance, total, part, em, poy) + Body(snap, minis, maxis)
  {
  }

  /** The extremes the master holds after MINLOC: the reduction, a
      parameter, applied to this rank's minima. */
  ghost function ReducedMins(snap: Snapshot, minloc: seq<ValIndex> -> seq<ValIndex>): seq<ValIndex>
    requires Readable(snap)
  {
    minloc(Mins(LocalExtremes(snap.emFields + snap.sources, snap.istart, snap.bufsize)))
  }

  /** The same after MAXLOC. */
  ghost function ReducedMaxs(snap: Snapshot, maxloc: seq<ValIndex> -> seq<ValIndex>): seq<ValIndex>
    requires Readable(snap)
  {
    maxloc(Maxs(LocalExtremes(snap.emFields + snap.sources, snap.istart, snap.bufsize)))
  }

  // ---------------------------------------------------------------------
  // What the list promises

  /** HEADER ORDER.  On the master the list opens with Ebal_norm, Ebalance,
      Etot, Eparticles, EFields and Poynting, in that order, holding the
      normalised balance, the balance, the total, particle and field
      energies and the Poynting total. */
  lemma HeaderFirst(e0: real, snap: Snapshot, minis: seq<ValIndex>, maxis: seq<ValIndex>)
    requires |snap.emEnergy| == |snap.emFields|
    ensures var r := ComputedList(true, e0, snap, minis, maxis);
            var part, em := ParticleEnergy(snap.species), Total(snap.emEnergy);
            var poy := Total(snap.poyInf) + Total(snap.poySup);
            && |r| >= 6
            && Keys(r)[..6] == ["Ebal_norm", "Ebalance", "Etot", "Eparticles", "EFields", "Poynting"]
            && r[1].value == part + em - (e0 + poy) && r[2].value == part + em
            && r[3].value == part && r[4].value == em && r[5].value == poy
            && r[0].value == Ratio(r[1].value, r[2].value)
  {
    var part, em := ParticleEnergy(snap.species), Total(snap.emEnergy);
    var poy := Total(snap.poyInf) + Total(snap.poySup);
    var balance := part + em - (e0 + poy);
    ComputedOnMaster(e0, snap, part, em, poy, part + em, balance, Ratio(balance, part + em), minis, maxis);
  }

  lemma NotEtotByFirst(key: string)
    requires |key| > 0 && key[0] != 'E'
    ensures key != "E_tot"
  {
  }

  lemma NotEtotByLast(n: string, suffix: string)
    requires |suffix| > 0 && suffix[|suffix| - 1] != 't'
    ensures n + suffix != "E_tot"
  {
    if |n + suffix| == 5 {
      assert (n + suffix)[4] == suffix[|suffix| - 1];
    }
  }

  lemma EnergyKey(n: string)
    ensures "E_" + n == "E_tot" <==> n == "tot"
  {
    if "E_" + n == "E_tot" {
      assert n == ("E_" + n)[2..];
    }
  }

  /** The three entries of one species hold key "E_tot" exactly when the
      species is named "tot", and then the value is its energy. */
  lemma SpeciesTriple(s: Species)
    ensures HasKey(Triple(s), "E_tot") <==> s.name == "tot"
    ensures s.name == "tot" ==> Lookup(Triple(s), "E_tot") == s.energy
  {
    var l := Triple(s);
    NotEtotByFirst("Z_" + s.name);
    NotEtotByFirst("N_" + s.name);
    EnergyKey(s.name);
    assert l[1..][1..] == [l[2]];
    if HasKey(l, "E_tot") {
      var i :| 0 <= i < 3 && l[i].key == "E_tot";
      assert i == 1;
    }
    if s.name == "tot" {
      assert l[1].key == "E_tot";
    }
  }

  /** Among the species entries, "E_tot" is the E_ entry of a species named
      "tot"; a lookup finds the first such species. */
  lemma {:induction false} SpeciesEtot(sp: seq<Species>)
    ensures HasKey(SpeciesEntries(sp), "E_tot") <==> exists t :: 0 <= t < |sp| && sp[t].name == "tot"
    ensures forall t :: 0 <= t < |sp| && sp[t].name == "tot" && (forall u :: 0 <= u < t ==> sp[u].name != "tot")
                        ==> Lookup(SpeciesEntries(sp), "E_tot") == sp[t].energy
  {
    if |sp| > 0 {
      var n := |sp| - 1;
      var s := sp[n];
      var l := Triple(s);
      SpeciesEtot(sp[..n]);
      SpeciesTriple(s);
      LookupAppend(SpeciesEntries(sp[..n]), l, "E_tot");
      assert forall t :: 0 <= t < n ==> sp[..n][t] == sp[t];
    }
  }

  /** Extrema keys end in n or l or x, never in the t of "E_tot". */
  lemma {:induction false} ExtremaNoEtot(names: seq<string>, minis: seq<ValIndex>, maxis: seq<ValIndex>)
    requires |minis| == |names| && |maxis| == |names|
    ensures !HasKey(ExtremaEntries(names, minis, maxis), "E_tot")
  {
    if |names| > 0 {
      var n := |names| - 1;
      ExtremaNoEtot(names[..n], minis[..n], maxis[..n]);
      var l := [Entry(names[n] + "Min", minis[n].val), Entry(names[n] + "MinCell", minis[n].index as real),
                Entry(names[n] + "Max", maxis[n].val), Entry(names[n] + "MaxCell", maxis[n].index as real)];
      NotEtotByLast(names[n], "Min");
      NotEtotByLast(names[n], "MinCell");
      NotEtotByLast(names[n], "Max");
      NotEtotByLast(names[n], "MaxCell");
      LookupAppend(ExtremaEntries(names[..n], minis[..n], maxis[..n]), l, "E_tot");
    }
  }

  lemma PoyNoEtot(j: int, p: seq<real>)
    ensures !HasKey(PoyEntries(j, p), "E_tot")
  {
    forall i | 0 <= i < |p|
      ensures PoyEntries(j, p)[i].key != "E_tot"
    {
      var a := if j == 0 then "inf" else "sup";
      var b := if i == 0 then "x" else if i == 1 then "y" else "z";
      assert PoyKey(j, i) == "Poy_" + a + "_" + b;
      assert PoyKey(j, i)[0] == 'P';
    }
  }

  lemma EnergyNoEtot(fs: seq<FieldData>, u: seq<real>)
    requires |u| == |fs|
    ensures !HasKey(EnergyEntries(fs, u), "E_tot")
  {
    forall t | 0 <= t < |fs|
      ensures EnergyEntries(fs, u)[t].key != "E_tot"
    {
      NotEtotByLast(fs[t].name, "_U");
    }
  }

  /** A part without the key changes no lookup when appended. */
  lemma NoKeyTail(a: seq<Entry>, b: seq<Entry>, k: string)
    requires !HasKey(b, k)
    ensures HasKey(a + b, k) <==> HasKey(a, k)
    ensures Lookup(a + b, k) == Lookup(a, k)
  {
    LookupAppend(a, b, k);
    LookupFirstMatch(a, k);
    LookupFirstMatch(b, k);
  }

  /** Past the species, no pushed entry has key "E_tot". */
  lemma BodyEtot(snap: Snapshot, minis: seq<ValIndex>, maxis: seq<ValIndex>)
    requires |snap.emEnergy| == |snap.emFields|
    ensures HasKey(Body(snap, minis, maxis), "E_tot") <==> HasKey(SpeciesEntries(snap.species), "E_tot")
    ensures Lookup(Body(snap, minis, maxis), "E_tot") == Lookup(SpeciesEntries(snap.species), "E_tot")
  {
    var fields := snap.emFields + snap.sources;
    var sE, eE := SpeciesEntries(snap.species), EnergyEntries(snap.emFields, snap.emEnergy);
    var xE := if |minis| == |maxis| && |minis| == |fields| then ExtremaEntries(Names(fields), minis, maxis) else [];
    var iE, uE := PoyEntries(0, snap.poyInf), PoyEntries(1, snap.poySup);
    assert Body(snap, minis, maxis) == sE + eE + xE + iE + uE;
    EnergyNoEtot(snap.emFields, snap.emEnergy);
    if |minis| == |maxis| && |minis| == |fields| {
      ExtremaNoEtot(Names(fields), minis, maxis);
    }
    PoyNoEtot(0, snap.poyInf);
    PoyNoEtot(1, snap.poySup);
    NoKeyTail(sE + eE + xE + iE, uE, "E_tot");
    NoKeyTail(sE + eE + xE, iE, "E_tot");
    NoKeyTail(sE + eE, xE, "E_tot");
    NoKeyTail(sE, eE, "E_tot");
  }

  /** WHERE "E_tot" COMES FROM.  The list holds key "E_tot" exactly when it
      is the master's and some species is named "tot" (every other key is a
      summary name, starts with Z_, N_ or Poy_, or ends in _U, Min, MinCell,
      Max or MaxCell); a lookup of "E_tot" yields the energy of the first
      such species, and 0.0 when there is none. */
  lemma EtotOnlyFromTot(isMaster: bool, e0: real, snap: Snapshot, minis: seq<ValIndex>, maxis: seq<ValIndex>)
    requires |snap.emEnergy| == |snap.emFields|
    ensures HasKey(ComputedList(isMaster, e0, snap, minis, maxis), "E_tot")
            <==> isMaster && exists t :: 0 <= t < |snap.species| && snap.species[t].name == "tot"
    ensures (forall t :: 0 <= t < |snap.species| ==> snap.species[t].name != "tot")
            ==> Lookup(ComputedList(isMaster, e0, snap, minis, maxis), "E_tot") == 0.0
    ensures forall t :: 0 <= t < |snap.species| && snap.species[t].name == "tot"
                        && (forall u :: 0 <= u < t ==> snap.species[u].name != "tot")
                        ==> Lookup(ComputedList(isMaster, e0, snap, minis, maxis), "E_tot") == if isMaster then snap.species[t].energy else 0.0
  {
    if isMaster {
      var part, em := ParticleEnergy(snap.species), Total(snap.emEnergy);
      var poy := Total(snap.poyInf) + Total(snap.poySup);
      var balance := part + em - (e0 + poy);
      var h := Header(Ratio(balance, part + em), balance, part + em, part, em, poy);
      ComputedOnMaster(e0, snap, part, em, poy, part + em, balance, Ratio(balance, part + em), minis, maxis);
      forall i | 0 <= i < 6
        ensures h[i].key != "E_tot"
      {
      }
      BodyEtot(snap, minis, maxis);
      LookupAppend(h, Body(snap, minis, maxis), "E_tot");
      SpeciesEtot(snap.species);
      LookupFirstMatch(SpeciesEntries(snap.species), "E_tot");
    }
  }

  /** The extrema scan of every field, in field order, on one rank. */
  method LocalExtrema(fields: seq<FieldData>, istart: seq<seq<nat>>, bufsize: seq<seq<nat>>)
    returns (minis: seq<ValIndex>, maxis: seq<ValIndex>)
    requires forall t :: 0 <= t < |fields| ==> Scannable(fields[t], istart, bufsize)
    ensures |minis| == |fields| && |maxis| == |fields|
    ensures forall t :: 0 <= t < |fields| ==> Extremes(minis[t], maxis[t]) == FieldExtremes(fields[t], istart, bufsize)
    ensures minis == Mins(LocalExtremes(fields, istart, bufsize)) && maxis == Maxs(LocalExtremes(fields, istart, bufsize))
  {
    minis, maxis := [], [];
    for t := 0 to |fields|
      invariant |minis| == t && |maxis| == t
      invariant forall u :: 0 <= u < t ==> Extremes(minis[u], maxis[u]) == FieldExtremes(fields[u], istart, bufsize)
    {
      var fd := fields[t];
      var b := ScanBounds(fd.isDual, istart, bufsize, fd.dims);
      var mn, mx := ScanField(fd.data, b);
      minis := minis + [mn];
      maxis := maxis + [mx];
    }
  }

  // ---------------------------------------------------------------------
  // Scheduling

  /** C's `%`: the remainder takes the sign of the dividend. */
  function CRem(a: int, b: int): int
    requires b != 0
  {
    var r := Abs(a) % Abs(b);
    if a < 0 then -r else r
  }

  function Abs(x: int): nat {
    if x < 0 then -x else x
  }

  /** `every && timestep % every == 0`. */
  predicate Due(timestep: int, every: int) {
    every != 0 && CRem(timestep, every) == 0
  }

  // ---------------------------------------------------------------------
  // The diagnostic object

  class DiagnosticScalar {
    const isMaster: bool
    const every: int
    /** `Energy_time_zero`; the constructor leaves it unset, so its first
        value is a parameter. */
    var energyTimeZero: real
    var outList: seq<Entry>
    /** The column names written once, when the log is first written. */
    var columns: seq<string>
    var log: seq<Line>

    constructor(isMaster: bool, every: int, e0: real)
      ensures this.isMaster == isMaster && this.every == every
      ensures energyTimeZero == e0 && outList == [] && columns == [] && log == []
    {
      this.isMaster := isMaster;
      this.every := every;
      energyTimeZero := e0;
      outList := [];
      columns := [];
      log := [];
    }

    /** The value of the first entry named `name`, or 0.0. */
    method GetScalar(name: string) returns (r: real)
      ensures r == Lookup(outList, name)
      ensures HasKey(outList, name) ==> exists i :: 0 <= i < |outList| && outList[i].key == name && r == outList[i].value
                                                  && forall j :: 0 <= j < i ==> outList[j].key != name
      ensures !HasKey(outList, name) ==> r == 0.0
    {
      LookupFirstMatch(outList, name);
      var i := 0;
      while i < |outList|
        invariant 0 <= i <= |outList|
        invariant Lookup(outList, name) == Lookup(outList[i..], name)
      {
        if outList[i].key == name {
          return outList[i].value;
        }
        assert outList[i..][1..] == outList[i + 1..];
        i := i + 1;
      }
      return 0.0;
    }

    /** `compute`: the list is cleared, the rank's extremes are found and
        reduced, and on the master the species, field-energy, extrema and
        Poynting entries are pushed, then the six summaries put in front. */
    method Compute(snap: Snapshot, minloc: seq<ValIndex> -> seq<ValIndex>, maxloc: seq<ValIndex> -> seq<ValIndex>)
      requires Readable(snap)
      modifies this`outList
      ensures outList == ComputedList(isMaster, energyTimeZero, snap, ReducedMins(snap, minloc), ReducedMaxs(snap, maxloc))
    {
      outList := [];
      var etotPart := PushSpecies(snap.species);
      ghost var spE := if isMaster then SpeciesEntries(snap.species) else [];
      assert outList == spE;
      var etotFields := PushEnergies(snap.emFields, snap.emEnergy);
      ghost var emE := if isMaster then EnergyEntries(snap.emFields, snap.emEnergy) else [];
      assert outList == spE + emE;
      var fields := snap.emFields + snap.sources;
      var localMin, localMax := LocalExtrema(fields, snap.istart, snap.bufsize);
      var minis, maxis := minloc(localMin), maxloc(localMax);
      ghost var guarded := |minis| == |maxis| && |minis| == |fields|;
      ghost var exE := if isMaster && guarded then ExtremaEntries(Names(fields), minis, maxis) else [];
      if isMaster {
        if |minis| == |maxis| && |minis| == |fields| {
          PushExtrema(Names(fields), minis, maxis);
        }
      }
      assert outList == spE + emE + exE;
      var poyTot := 0.0;
      ghost var before := outList;
      poyTot := PushFace(0, snap.poyInf, poyTot);
      ghost var infE := if isMaster then PoyEntries(0, snap.poyInf) else [];
      assert outList == before + infE;
      ghost var middle := outList;
      poyTot := PushFace(1, snap.poySup, poyTot);
      ghost var supE := if isMaster then PoyEntries(1, snap.poySup) else [];
      assert outList == middle + supE;
      if isMaster {
        var totalEnergy := etotPart + etotFields;
        var energyBalance := totalEnergy - (energyTimeZero + poyTot);
        var energyBalNorm := Ratio(energyBalance, totalEnergy);
        ghost var body := outList;
        outList := [Entry("Poynting", poyTot)] + outList;
        outList := [Entry("EFields", etotFields)] + outList;
        outList := [Entry("Eparticles", etotPart)] + outList;
        outList := [Entry("Etot", totalEnergy)] + outList;
        outList := [Entry("Ebalance", energyBalance)] + outList;
        outList := [Entry("Ebal_norm", energyBalNorm)] + outList;
        FrontInserts(body, energyBalNorm, energyBalance, totalEnergy, etotPart, etotFields, poyTot);
        assert body == Body(snap, minis, maxis);
        assert poyTot == Total(snap.poyInf) + Total(snap.poySup);
        ComputedOnMaster(energyTimeZero, snap, etotPart, etotFields, poyTot, totalEnergy, energyBalance, energyBalNorm, minis, maxis);
        assert minis == ReducedMins(snap, minloc) && maxis == ReducedMaxs(snap, maxloc);
      } else {
        assert outList == [];
        assert outList == ComputedList(isMaster, energyTimeZero, snap, ReducedMins(snap, minloc), ReducedMaxs(snap, maxloc));
      }
    }

    /** The species loop: Z_, E_ and N_ of each species pushed on the
        master, and the particle energy summed. */
    method PushSpecies(sp: seq<Species>) returns (etotPart: real)
      modifies this`outList
      ensures outList == old(outList) + (if isMaster then SpeciesEntries(sp) else [])
      ensures etotPart == if isMaster then ParticleEnergy(sp) else 0.0
    {
      ghost var pre := outList;
      etotPart := 0.0;
      for ispec := 0 to |sp|
        invariant outList == pre + (if isMaster then SpeciesEntries(sp[..ispec]) else [])
        invariant etotPart == if isMaster then ParticleEnergy(sp[..ispec]) else 0.0
      {
        var s := sp[ispec];
        var chargeTot := s.chargeSum;
        if isMaster {
          if s.count != 0 {
            chargeTot := chargeTot / (s.count as real);
          }
          assert chargeTot == MeanCharge(s);
          outList := outList + [Entry("Z_" + s.name, chargeTot)];
          outList := outList + [Entry("E_" + s.name, s.energy)];
          outList := outList + [Entry("N_" + s.name, s.count as real)];
          etotPart := etotPart + s.energy;
        }
        SpeciesPrefix(sp, ispec);
      }
      assert sp[..|sp|] == sp;
    }

    /** The field-energy loop: one `_U` entry per field on the master, and
        the field energy summed. */
    method PushEnergies(fs: seq<FieldData>, u: seq<real>) returns (etotFields: real)
      requires |u| == |fs|
      modifies this`outList
      ensures outList == old(outList) + (if isMaster then EnergyEntries(fs, u) else [])
      ensures etotFields == if isMaster then Total(u) else 0.0
    {
      ghost var pre := outList;
      etotFields := 0.0;
      for t := 0 to |fs|
        invariant outList == pre + (if isMaster then EnergyEntries(fs[..t], u[..t]) else [])
        invariant etotFields == if isMaster then Total(u[..t]) else 0.0
      {
        if isMaster {
          outList := outList + [Entry(fs[t].name + "_U", u[t])];
          etotFields := etotFields + u[t];
        }
        assert fs[..t + 1][..t] == fs[..t] && u[..t + 1][..t] == u[..t];
      }
      assert fs[..|fs|] == fs && u[..|u|] == u;
    }

    /** The extrema loop: Min, MinCell, Max, MaxCell of each field. */
    method PushExtrema(names: seq<string>, minis: seq<ValIndex>, maxis: seq<ValIndex>)
      requires |minis| == |names| && |maxis| == |names|
      modifies this`outList
      ensures outList == old(outList) + ExtremaEntries(names, minis, maxis)
    {
      ghost var pre := outList;
      var i := 0;
      while i < |names| && i < |minis|
        invariant 0 <= i <= |names|
        invariant outList == pre + ExtremaEntries(names[..i], minis[..i], maxis[..i])
      {
        outList := outList + [Entry(names[i] + "Min", minis[i].val)];
        outList := outList + [Entry(names[i] + "MinCell", minis[i].index as real)];
        outList := outList + [Entry(names[i] + "Max", maxis[i].val)];
        outList := outList + [Entry(names[i] + "MaxCell", maxis[i].index as real)];
        assert names[..i + 1][..i] == names[..i];
        assert minis[..i + 1][..i] == minis[..i] && maxis[..i + 1][..i] == maxis[..i];
        i := i + 1;
      }
      assert names[..|names|] == names && minis[..|minis|] == minis && maxis[..|maxis|] == maxis;
    }

    /** One face j of the Poynting loop: an entry per flux component on the
        master, each added to the running total. */
    method PushFace(j: int, p: seq<real>, poyIn: real) returns (poyTot: real)
      modifies this`outList
      ensures outList == old(outList) + (if isMaster then PoyEntries(j, p) else [])
      ensures poyTot == poyIn + (if isMaster then Total(p) else 0.0)
    {
      ghost var pre := outList;
      poyTot := poyIn;
      for i := 0 to |p|
        invariant outList == pre + (if isMaster then PoyEntries(j, p[..i]) else [])
        invariant poyTot == poyIn + (if isMaster then Total(p[..i]) else 0.0)
      {
        var poy := p[i];
        if isMaster {
          outList := outList + [Entry(PoyKey(j, i), poy)];
          poyTot := poyTot + poy;
        }
        assert p[..i + 1][..i] == p[..i];
      }
      assert p[..|p|] == p;
    }

    /** `write`: on the master, the column names when the log is still
        empty, then one line of values. */
    method Write(itime: int)
      modifies this`columns, this`log
      ensures columns == if isMaster && old(log) == [] then Keys(outList) else old(columns)
      ensures log == if isMaster then old(log) + [Line(itime, Values(outList))] else old(log)
    {
      if isMaster {
        if log == [] {
          columns := Keys(outList);
        }
        log := log + [Line(itime, Values(outList))];
      }
    }

    /** `run`: at timestep 0 the list is computed and its "E_tot" stored as
        the energy at time zero; at every due timestep it is computed again
        and written. */
    method Run(timestep: int, snap: Snapshot, minloc: seq<ValIndex> -> seq<ValIndex>, maxloc: seq<ValIndex> -> seq<ValIndex>)
      requires Readable(snap)
      modifies this`outList, this`energyTimeZero, this`columns, this`log
      ensures energyTimeZero == if timestep == 0 then Lookup(ComputedList(isMaster, old(energyTimeZero), snap, ReducedMins(snap, minloc), ReducedMaxs(snap, maxloc)), "E_tot")
                                else old(energyTimeZero)
      ensures Due(timestep, every) ==> outList == ComputedList(isMaster, energyTimeZero, snap, ReducedMins(snap, minloc), ReducedMaxs(snap, maxloc))
      ensures !Due(timestep, every) && timestep == 0 ==> outList == ComputedList(isMaster, old(energyTimeZero), snap, ReducedMins(snap, minloc), ReducedMaxs(snap, maxloc))
      ensures !Due(timestep, every) && timestep != 0 ==> outList == old(outList)
      ensures log == if Due(timestep, every) && isMaster then old(log) + [Line(timestep, Values(outList))] else old(log)
      ensures columns == if Due(timestep, every) && isMaster && old(log) == [] then Keys(outList) else old(columns)
      ensures timestep == 0 && (!isMaster || forall t :: 0 <= t < |snap.species| ==> snap.species[t].name != "tot")
              ==> energyTimeZero == 0.0
    {
      EtotOnlyFromTot(isMaster, energyTimeZero, snap, ReducedMins(snap, minloc), ReducedMaxs(snap, maxloc));
      if timestep == 0 {
        Compute(snap, minloc, maxloc);
        energyTimeZero := GetScalar("E_tot");
      }
      if every != 0 && CRem(timestep, every) == 0 {
        Compute(snap, minloc, maxloc);
        Write(timestep);
      }
    }
  }
}
