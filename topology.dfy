/** The bond table `Aminoacid.makeLinks` walks: pairs of atom names, first
    the ones every residue type shares, then the side chain of the standard
    amino acid the residue's type names. */
module Topology {
  import opened Results

  /** A bond between the atoms of a residue named `0` and `1`. */
  type NamePair = (string, string)

  /** The pairs every residue gets before its side chain: C-O; CA-HA and
      CA-CB unless it is glycine; N-H unless it is proline; OXT-C when the
      residue has a terminal oxygen. */
  function Shared(code: string, hasOXT: bool): (r: seq<NamePair>)
    ensures 1 <= |r| <= 5
  {
    [("C", "O")]
    + (if code != "GLY" then [("CA", "HA"), ("CA", "CB")] else [])
    + (if code != "PRO" then [("N", "H")] else [])
    + (if hasOXT then [("OXT", "C")] else [])
  }

  /** The residue types the side-chain switch has a case for. */
  datatype Amino =
    | Asn | Tyr | Leu | Ile | Gln | Trp | Lys | Asp | Gly | Pro
    | Ser | Arg | Ala | Cys | Glu | His | Met | Phe | Thr | Val

  /** The case label of each. */
  function Code(a: Amino): string {
    match a
    case Asn => "ASN"
    case Tyr => "TYR"
    case Leu => "LEU"
    case Ile => "ILE"
    case Gln => "GLN"
    case Trp => "TRP"
    case Lys => "LYS"
    case Asp => "ASP"
    case Gly => "GLY"
    case Pro => "PRO"
    case Ser => "SER"
    case Arg => "ARG"
    case Ala => "ALA"
    case Cys => "CYS"
    case Glu => "GLU"
    case His => "HIS"
    case Met => "MET"
    case Phe => "PHE"
    case Thr => "THR"
    case Val => "VAL"
  }

  /** The cases in source order. */
  const Aminos: seq<Amino> := [
    Asn, Tyr, Leu, Ile, Gln, Trp, Lys, Asp, Gly, Pro, Ser, Arg, Ala, Cys, Glu, His, Met, Phe, Thr, Val]

  /** The first of `cases` whose label is `code`, if any. */
  function Classify(code: string, cases: seq<Amino>): (r: Option<Amino>)
    ensures r.Some? ==> r.value in cases && Code(r.value) == code
    decreases |cases|
  {
    if cases == [] then None
    else if code == Code(cases[0]) then Some(cases[0])
    else Classify(code, cases[1..])
  }

  /** The side-chain pairs of each standard amino acid, in source order. */
  function SideChain(a: Amino): (r: seq<NamePair>)
    ensures |r| >= 2
    ensures a != Gly ==> r[0].0 == "CB"
  {
    match a
    case Asn =>
      [("CB", "HB3"), ("CB", "HB2"), ("CB", "CG"), ("CG", "ND2"), ("CG", "OD1"),
       ("ND2", "HD22"), ("ND2", "HD21")]
    case Tyr =>
      [("CB", "HB3"), ("CB", "HB2"), ("CB", "CG"), ("CG", "CD1"), ("CG", "CD2"),
       ("CD1", "HD1"), ("CD1", "CE1"), ("CD2", "HD2"), ("CD2", "CE2"),
       ("CE1", "HE1"), ("CE1", "CZ"), ("CE2", "HE2"), ("CE2", "CZ"),
       ("CZ", "OH"), ("OH", "HH")]
    case Leu =>
      [("CB", "HB2"), ("CB", "HB3"), ("CB", "CG"), ("CG", "CD1"), ("CG", "CD2"), ("CG", "HG"),
       ("CD1", "HD11"), ("CD1", "HD12"), ("CD1", "HD13"),
       ("CD2", "HD21"), ("CD2", "HD22"), ("CD2", "HD23")]
    case Ile =>
      [("CB", "HB"), ("CB", "CG2"), ("CB", "CG1"),
       ("CG2", "HG21"), ("CG2", "HG22"), ("CG2", "HG23"),
       ("CG1", "HG12"), ("CG1", "HG13"), ("CG1", "CD1"),
       ("CD1", "HD11"), ("CD1", "HD12"), ("CD1", "HD13")]
    case Gln =>
      [("CB", "CG"), ("CB", "HB2"), ("CB", "HB3"), ("CG", "HG2"), ("CG", "HG3"), ("CG", "CD"),
       ("CD", "OE1"), ("CD", "NE2"), ("NE2", "HE21"), ("NE2", "HE22")]
    case Trp =>
      [("CB", "HB2"), ("CB", "HB3"), ("CB", "CG"), ("CG", "CD2"), ("CG", "CD1"),
       ("CD1", "HD1"), ("CD1", "NE1"), ("NE1", "HE1"), ("NE1", "CE2"),
       ("CE2", "CZ2"), ("CE2", "CD2"), ("CZ2", "HZ2"), ("CZ2", "CH2"),
       ("CH2", "HH2"), ("CH2", "CZ3"), ("CZ3", "HZ3"), ("CZ3", "CE3"),
       ("CE3", "HE3"), ("CE3", "CD2")]
    case Lys =>
      [("CB", "HB2"), ("CB", "HB3"), ("CB", "CG"), ("CG", "HG2"), ("CG", "HG3"), ("CG", "CD"),
       ("CD", "HD2"), ("CD", "HD3"), ("CD", "CE"), ("CE", "HE2"), ("CE", "HE3"), ("CE", "NZ"),
       ("NZ", "HZ1"), ("NZ", "HZ2"), ("NZ", "HZ3")]
    case Asp =>
      [("CB", "HB2"), ("CB", "HB3"), ("CB", "CG"), ("CG", "OD1"), ("CG", "OD2")]
    case Gly =>
      [("CA", "HA2"), ("CA", "HA3")]
    case Pro =>
      [("CB", "CG"), ("CB", "HB2"), ("CB", "HB3"), ("CG", "CD"), ("CG", "HG2"), ("CG", "HG3"),
       ("CD", "N"), ("CD", "HD2"), ("CD", "HD3")]
    case Ser =>
      [("CB", "HB2"), ("CB", "HB3"), ("CB", "OG"), ("OG", "HG")]
    case Arg =>
      [("CB", "HB2"), ("CB", "HB3"), ("CB", "CG"), ("CG", "HG2"), ("CG", "HG3"),
       ("CD", "HD2"), ("CD", "HD3"), ("CD", "NE"), ("NE", "HE"), ("NE", "CZ"),
       ("CZ", "NH1"), ("CZ", "NH2"), ("NH2", "HH21"), ("NH2", "HH22"),
       ("NH1", "HH11"), ("NH1", "HH12")]
    case Ala =>
      [("CB", "HB1"), ("CB", "HB2"), ("CB", "HB3")]
    case Cys =>
      [("CB", "HB2"), ("CB", "HB3"), ("CB", "SG"), ("SG", "HG")]
    case Glu =>
      [("CB", "HB2"), ("CB", "HB3"), ("CB", "CG"), ("CG", "HG2"), ("CG", "HG3"), ("CG", "CD"),
       ("CD", "OE1"), ("CD", "OE2"), ("OE2", "HE2")]
    case His =>
      [("CB", "HB2"), ("CB", "HB3"), ("CB", "CG"), ("CG", "CD2"), ("CG", "ND1"),
       ("CD2", "HD2"), ("CD2", "NE2"), ("NE2", "HE2"), ("NE2", "CE1"),
       ("CE1", "HE1"), ("CE1", "ND1"), ("ND1", "HD1")]
    case Met =>
      [("CB", "HB2"), ("CB", "HB3"), ("CB", "CG"), ("CG", "HG2"), ("CG", "HG3"), ("CG", "SD"),
       ("SD", "CE"), ("CG", "HG2"), ("CG", "HG3"), ("CG", "SD"),
       ("CE", "HE1"), ("CE", "HE2"), ("CE", "HE3")]
    case Phe =>
      [("CB", "HB2"), ("CB", "HB3"), ("CB", "CG"), ("CG", "CD1"), ("CG", "CD2"),
       ("CD1", "HD1"), ("CD1", "CE1"), ("CE1", "HE1"), ("CE1", "CZ"),
       ("CZ", "HZ"), ("CZ", "CE2"), ("CE2", "HE2"), ("CE2", "CD2"), ("CD2", "HD2")]
    case Thr =>
      [("CB", "HB"), ("CB", "OG1"), ("CB", "CG2"), ("OG1", "HG1"),
       ("CG2", "HG21"), ("CG2", "HG22"), ("CG2", "HG23")]
    case Val =>
      [("CB", "HB"), ("CG1", "HG11"), ("CG1", "HG12"), ("CG1", "HG13"),
       ("CG2", "HG21"), ("CG2", "HG22"), ("CG2", "HG23")]
  }

  /** The side-chain pairs the switch adds for a residue type: none for a
      type it has no case for. */
  function SideChainOf(code: string): seq<NamePair> {
    match Classify(code, Aminos)
    case None => []
    case Some(a) => SideChain(a)
  }

  /** Every pair `makeLinks` turns into a bond, in order, for a residue of
      type `code` that does or does not hold an OXT atom. */
  function Links(code: string, hasOXT: bool): (r: seq<NamePair>)
    ensures Shared(code, hasOXT) <= r
  {
    Shared(code, hasOXT) + SideChainOf(code)
  }

  /** How often a pair occurs. */
  function Occurrences(ps: seq<NamePair>, p: NamePair): nat {
    if ps == [] then 0 else (if ps[0] == p then 1 else 0) + Occurrences(ps[1..], p)
  }

  lemma {:induction false} OccurrencesConcat(xs: seq<NamePair>, ys: seq<NamePair>, p: NamePair)
    ensures Occurrences(xs + ys, p) == Occurrences(xs, p) + Occurrences(ys, p)
  {
    if xs != [] {
      assert (xs + ys)[0] == xs[0];
      assert (xs + ys)[1..] == xs[1..] + ys;
      OccurrencesConcat(xs[1..], ys, p);
    } else {
      assert xs + ys == ys;
    }
  }

  /** A pair that is not an element does not occur. */
  lemma {:induction false} NoOccurrence(ps: seq<NamePair>, p: NamePair)
    requires p !in ps
    ensures Occurrences(ps, p) == 0
  {
    if ps != [] {
      assert forall i :: 0 <= i < |ps| - 1 ==> ps[1..][i] == ps[i + 1];
      NoOccurrence(ps[1..], p);
    }
  }

  /** Looking a type up in the cases yields one of them, with that label. */
  lemma {:induction false} ClassifyFinds(code: string, cases: seq<Amino>)
    ensures Classify(code, cases).Some? ==> Code(Classify(code, cases).value) == code
    ensures Classify(code, cases).None? <==> forall i :: 0 <= i < |cases| ==> Code(cases[i]) != code
    decreases |cases|
  {
    if cases != [] {
      ClassifyFinds(code, cases[1..]);
      assert forall i :: 1 <= i < |cases| ==> cases[i] == cases[1..][i - 1];
    }
  }

  /** Every side-chain pair ends in a name of two or more characters, or
      in N (proline's CD-N). */
  predicate LongEnds(ps: seq<NamePair>) {
    forall i :: 0 <= i < |ps| ==> |ps[i].1| >= 2 || ps[i].1 == "N"
  }

  lemma SideChainEnds1(a: Amino)
    requires a in {Asn, Tyr, Leu, Ile, Gln}
    ensures LongEnds(SideChain(a))
  {
  }

  lemma SideChainEnds2(a: Amino)
    requires a in {Trp, Lys, Asp, Gly, Pro}
    ensures LongEnds(SideChain(a))
  {
  }

  lemma SideChainEnds3(a: Amino)
    requires a in {Ser, Arg, Ala, Cys, Glu}
    ensures LongEnds(SideChain(a))
  {
  }

  lemma SideChainEnds4(a: Amino)
    requires a in {His, Met, Phe, Thr, Val}
    ensures LongEnds(SideChain(a))
  {
  }

  /** No side chain bonds N to H or OXT to C. */
  lemma SideChainAvoids(a: Amino)
    ensures ("N", "H") !in SideChain(a) && ("OXT", "C") !in SideChain(a)
  {
    if a in {Asn, Tyr, Leu, Ile, Gln} {
      SideChainEnds1(a);
    } else if a in {Trp, Lys, Asp, Gly, Pro} {
      SideChainEnds2(a);
    } else if a in {Ser, Arg, Ala, Cys, Glu} {
      SideChainEnds3(a);
    } else {
      SideChainEnds4(a);
    }
  }

  /** The first bond of every residue joins C and O. */
  lemma FirstLinkIsCarbonyl(code: string, hasOXT: bool)
    ensures Links(code, hasOXT)[0] == ("C", "O")
  {
  }

  /** Every type but glycine next bonds CA to HA and then CA to CB. */
  lemma AlphaCarbonLinks(code: string, hasOXT: bool)
    requires code != "GLY"
    ensures Links(code, hasOXT)[1..3] == [("CA", "HA"), ("CA", "CB")]
  {
    var front, all := Shared(code, hasOXT), Links(code, hasOXT);
    assert front[1] == ("CA", "HA") && front[2] == ("CA", "CB");
    assert front <= all;
    assert all[1] == front[1] && all[2] == front[2];
  }

  /** No side chain the switch adds bonds N to H or OXT to C. */
  lemma SideChainOfAvoids(code: string)
    ensures ("N", "H") !in SideChainOf(code) && ("OXT", "C") !in SideChainOf(code)
  {
    if Classify(code, Aminos).Some? {
      SideChainAvoids(Classify(code, Aminos).value);
    }
  }

  /** The shared pairs hold N-H once, except for proline. */
  lemma SharedAmide(code: string, hasOXT: bool)
    ensures Occurrences(Shared(code, hasOXT), ("N", "H")) == if code == "PRO" then 0 else 1
  {
    var nh := ("N", "H");
    var ca: seq<NamePair> := if code != "GLY" then [("CA", "HA"), ("CA", "CB")] else [];
    var amide: seq<NamePair> := if code != "PRO" then [nh] else [];
    var ox: seq<NamePair> := if hasOXT then [("OXT", "C")] else [];
    var front := [("C", "O")] + ca;
    assert Shared(code, hasOXT) == front + amide + ox;
    OccurrencesConcat(front + amide, ox, nh);
    OccurrencesConcat(front, amide, nh);
    NoOccurrence(front, nh);
    NoOccurrence(ox, nh);
    assert Occurrences(amide, nh) == |amide|;
  }

  /** Every type but proline gets exactly one N-H bond and proline none. */
  lemma AmideHydrogenOnce(code: string, hasOXT: bool)
    ensures Occurrences(Links(code, hasOXT), ("N", "H")) == if code == "PRO" then 0 else 1
  {
    OccurrencesConcat(Shared(code, hasOXT), SideChainOf(code), ("N", "H"));
    SharedAmide(code, hasOXT);
    SideChainOfAvoids(code);
    NoOccurrence(SideChainOf(code), ("N", "H"));
  }

  /** The terminal oxygen is bonded to C exactly when the residue has one. */
  lemma TerminalOxygen(code: string, hasOXT: bool)
    ensures ("OXT", "C") in Links(code, hasOXT) <==> hasOXT
  {
    SideChainOfAvoids(code);
    if hasOXT {
      assert ("OXT", "C") in Shared(code, hasOXT);
    } else {
      assert ("OXT", "C") !in Shared(code, hasOXT);
    }
  }

  /** A type the switch has no case for gets only the shared pairs. */
  lemma UnknownTypeSharedOnly(code: string, hasOXT: bool)
    requires forall a: Amino :: Code(a) != code
    ensures Links(code, hasOXT) == Shared(code, hasOXT)
  {
    ClassifyFinds(code, Aminos);
  }

  /** A type the switch names gets its side chain after the shared pairs. */
  lemma KnownTypeSideChain(a: Amino, hasOXT: bool)
    ensures Links(Code(a), hasOXT) == Shared(Code(a), hasOXT) + SideChain(a)
  {
    ClassifyCode(a);
  }

  /** The switch finds the case of every type it names. */
  lemma ClassifyCode(a: Amino)
    ensures Classify(Code(a), Aminos) == Some(a)
  {
    ClassifyFinds(Code(a), Aminos);
    var found := Classify(Code(a), Aminos);
    var i := ListedAmino(a);
    assert Code(Aminos[i]) == Code(a);
    assert found.Some?;
    CodeInjective(found.value, a);
  }

  /** Every type is one of the cases: case `i`. */
  lemma ListedAmino(a: Amino) returns (i: nat)
    ensures i < |Aminos| && Aminos[i] == a
  {
    match a
    case Asn => i := 0;
    case Tyr => i := 1;
    case Leu => i := 2;
    case Ile => i := 3;
    case Gln => i := 4;
    case Trp => i := 5;
    case Lys => i := 6;
    case Asp => i := 7;
    case Gly => i := 8;
    case Pro => i := 9;
    case Ser => i := 10;
    case Arg => i := 11;
    case Ala => i := 12;
    case Cys => i := 13;
    case Glu => i := 14;
    case His => i := 15;
    case Met => i := 16;
    case Phe => i := 17;
    case Thr => i := 18;
    case Val => i := 19;
  }

  lemma CodeInjective(a: Amino, b: Amino)
    requires Code(a) == Code(b)
    ensures a == b
  {
  }

  /** The table's irregularities, as written: methionine repeats its three
      CG pairs, arginine has no CG-CD pair and valine no CB-CG1 or CB-CG2
      pair. */
  lemma TableQuirks()
    ensures SideChain(Met)[3..6] == SideChain(Met)[7..10]
    ensures ("CG", "CD") !in SideChain(Arg)
    ensures ("CB", "CG1") !in SideChain(Val) && ("CB", "CG2") !in SideChain(Val)
  {
  }
}
