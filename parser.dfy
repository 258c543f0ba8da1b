/** The PDB flat-file parser: reads the lines into its lists, groups the
    first model's atoms into residues and the residues into chains, builds
    the model and resolves the helices and sheets against it. */
module Parsing {
  import opened Results
  import opened Records
  import opened Reading
  import opened Grouping
  import opened Primary
  import opened Secondary
  import opened Indexing
  import St = Structure

  /** The records of a list of atoms, as their fields now stand. */
  function AtomRecords(xs: seq<Atom>): (r: seq<AtomRecord>)
    reads xs
    ensures |r| == |xs|
    ensures forall i :: 0 <= i < |xs| ==> r[i] == xs[i].Record()
  {
    seq(|xs|, i requires 0 <= i < |xs| reads xs => xs[i].Record())
  }

  /** The serial numbers a list of CONECT bonds names. */
  function SerialPairs(bs: seq<Bond>): (r: seq<(int, int)>)
    ensures |r| == |bs|
    ensures forall i :: 0 <= i < |bs| ==> r[i] == (bs[i].serialA, bs[i].serialB)
  {
    seq(|bs|, i requires 0 <= i < |bs| => (bs[i].serialA, bs[i].serialB))
  }

  /** The ranges of a list of helices. */
  function HelixRanges(hs: seq<Helix>): (r: seq<HelixRange>)
    reads hs
    ensures |r| == |hs|
    ensures forall i :: 0 <= i < |hs| ==> r[i] == hs[i].Range()
  {
    seq(|hs|, i requires 0 <= i < |hs| reads hs => hs[i].Range())
  }

  /** The ranges of a list of sheets. */
  function SheetRanges(ss: seq<Sheet>): (r: seq<SheetRange>)
    reads ss
    ensures |r| == |ss|
    ensures forall i :: 0 <= i < |ss| ==> r[i] == ss[i].Range()
  {
    seq(|ss|, i requires 0 <= i < |ss| reads ss => ss[i].Range())
  }

  /** Creates one `Bond(serial, bonded)` per pair, in order. */
  method MakeLinks(pairs: seq<(int, int)>) returns (bs: seq<Bond>)
    ensures SerialPairs(bs) == pairs
    ensures forall k :: 0 <= k < |bs| ==> bs[k].look == NoShape && fresh(bs[k])
  {
    bs := [];
    var i := 0;
    while i < |pairs|
      invariant i <= |pairs| && SerialPairs(bs) == pairs[..i]
      invariant forall k :: 0 <= k < |bs| ==> bs[k].look == NoShape && fresh(bs[k])
    {
      var b := new Bond.Serials(pairs[i].0, pairs[i].1);
      bs := bs + [b];
      i := i + 1;
    }
    assert pairs[..i] == pairs;
  }

  /** The residue numbers of the atom records: the key of the residue loop. */
  function ResIDKeys(recs: seq<AtomRecord>): (r: seq<int>)
    ensures |r| == |recs|
    ensures forall i :: 0 <= i < |recs| ==> r[i] == recs[i].resID
  {
    seq(|recs|, i requires 0 <= i < |recs| => recs[i].resID)
  }

  /** The residue names of the atom records: what the residue loop's name
      variable is set to. */
  function ResidueTags(recs: seq<AtomRecord>): (r: seq<string>)
    ensures |r| == |recs|
    ensures forall i :: 0 <= i < |recs| ==> r[i] == recs[i].residue
  {
    seq(|recs|, i requires 0 <= i < |recs| => recs[i].residue)
  }

  /** The residues `buildModel` forms from the atoms read. */
  ghost function ResidueRuns(recs: seq<AtomRecord>): seq<Run<string>> {
    Runs(ResIDKeys(recs), ResidueTags(recs), "")
  }

  /** The chain identifier of each residue formed: its first atom's. */
  ghost function ResidueChainIDs(recs: seq<AtomRecord>): (r: seq<string>)
    ensures |r| == |ResidueRuns(recs)|
  {
    var runs := ResidueRuns(recs);
    RunsInRange(ResIDKeys(recs), ResidueTags(recs), "");
    seq(|runs|, k requires 0 <= k < |runs| => recs[runs[k].lo].chainID)
  }

  /** The chains `buildModel` forms from those residues. The name variable
      of the chain loop is never read, so the names are those of the keys. */
  ghost function ChainRuns(recs: seq<AtomRecord>): seq<Run<string>> {
    Runs(ResidueChainIDs(recs), ResidueChainIDs(recs), "")
  }

  /** The chain identifiers of a list of residues. */
  function AcidChainIDs(acids: seq<Aminoacid>): (r: seq<string>)
    ensures |r| == |acids|
    ensures forall i :: 0 <= i < |acids| ==> r[i] == acids[i].chainID
  {
    seq(|acids|, i requires 0 <= i < |acids| => acids[i].chainID)
  }

  /** Residue k holds the atoms of group k, is named after it and takes the
      chain identifier its first atom was read with and that atom's residue
      number. */
  ghost predicate Grouped(recs: seq<AtomRecord>, xs: seq<Atom>, runs: seq<Run<string>>, acids: seq<Aminoacid>) {
    && |recs| == |xs| && |acids| == |runs|
    && forall k :: 0 <= k < |runs| ==>
      && runs[k].lo < runs[k].hi <= |xs|
      && acids[k].Valid() && acids[k].name == runs[k].name
      && acids[k].atoms == xs[runs[k].lo..runs[k].hi]
      && acids[k].chainID == recs[runs[k].lo].chainID
      && acids[k].resID == recs[runs[k].lo].resID
  }

  /** Chain k holds the atoms of the residues of group k and indexes those
      residues by residue number: what the chain keeps for good. */
  ghost predicate Formed(acids: seq<Aminoacid>, runs: seq<Run<string>>, chains: seq<St.Chain>) {
    && |chains| == |runs|
    && forall k :: 0 <= k < |runs| ==>
      && runs[k].lo < runs[k].hi <= |acids|
      && chains[k].Valid()
      && chains[k].atoms == St.AtomsOf(acids[runs[k].lo..runs[k].hi])
      && chains[k].acidMap == Put(map[], St.ResIDs(acids[runs[k].lo..runs[k].hi]), acids[runs[k].lo..runs[k].hi])
  }

  /** Chain k is formed from group k, holds its residues and takes its
      identifier from the first of them. */
  ghost predicate Chained(acids: seq<Aminoacid>, runs: seq<Run<string>>, chains: seq<St.Chain>)
    reads chains
  {
    && Formed(acids, runs, chains)
    && forall k :: 0 <= k < |runs| ==>
      && runs[k].lo < runs[k].hi <= |acids|
      && chains[k].aminoacids == acids[runs[k].lo..runs[k].hi]
      && chains[k].chainID == acids[runs[k].lo].chainID
  }

  /** The identifier each chain formed takes: its first residue's. */
  function LeadIDs(acids: seq<Aminoacid>, runs: seq<Run<string>>): (r: seq<string>)
    ensures |r| == |runs|
    ensures forall k :: 0 <= k < |runs| && runs[k].lo < |acids| ==> r[k] == acids[runs[k].lo].chainID
  {
    seq(|runs|, k requires 0 <= k < |runs| => if runs[k].lo < |acids| then acids[runs[k].lo].chainID else "")
  }

  /** The chains formed carry the identifiers of their first residues. */
  lemma ChainedIDs(acids: seq<Aminoacid>, runs: seq<Run<string>>, chains: seq<St.Chain>)
    requires Chained(acids, runs, chains)
    ensures St.ChainIDs(chains) == LeadIDs(acids, runs)
  {
  }

  /** The atoms carry the fields of the records they were made from that
      no method can change: position, name, element and residue number. */
  ghost predicate Holds(xs: seq<Atom>, recs: seq<AtomRecord>) {
    && |xs| == |recs|
    && forall i :: 0 <= i < |xs| ==>
      && xs[i].position == recs[i].position && xs[i].name == recs[i].name
      && xs[i].element == recs[i].element && xs[i].resID == recs[i].resID
  }

  /** `new Aminoacid(resName, curAA)` on the open residue, atoms [lo, hi):
      the residue keeps every field of every atom the parser read. */
  method MakeResidue(name: string, cur: seq<Atom>, ghost atoms: seq<Atom>, ghost lo: nat, ghost hi: nat)
    returns (a: Aminoacid)
    requires lo < hi <= |atoms| && cur == atoms[lo..hi]
    modifies atoms
    ensures a.Valid() && a.name == name && a.atoms == cur && a.chainID == old(atoms[lo].chainID)
    ensures a.resID == atoms[lo].resID
    ensures forall j :: 0 <= j < |atoms| ==> atoms[j].Record() == old(atoms[j].Record())
  {
    a := new Aminoacid(name, cur);
    forall j | 0 <= j < |atoms|
      ensures atoms[j].Record() == old(atoms[j].Record())
    {
      if atoms[j] in cur {
        assert Kept(atoms[j]);
      }
    }
  }

  /** The state of the residue loop before iteration i: the residues
      closed so far are the first groups of the whole loop, the rest coming
      from the open residue, which holds atoms [lo, i). */
  ghost predicate ResidueLoop(recs: seq<AtomRecord>, atoms: seq<Atom>, i: nat, lo: nat, cur: seq<Atom>,
                              resName: string, done: seq<Run<string>>, acids: seq<Aminoacid>)
  {
    && i <= |atoms| && Grouped(recs, atoms, done, acids)
    && (i == 0 ==> done == [] && resName == "" && lo == 0)
    && (0 < i ==> done + RunsFrom(ResIDKeys(recs), ResidueTags(recs), i, lo, resName) == ResidueRuns(recs))
    && (0 < i < |atoms| ==> lo < i && cur == atoms[lo..i])
  }

  lemma FirstAtomStep(recs: seq<AtomRecord>, atoms: seq<Atom>)
    requires |recs| == |atoms| > 0
    ensures ResidueLoop(recs, atoms, 1, 0, [atoms[0]], "", [], [])
  {
    assert [atoms[0]] == atoms[0..1];
  }

  lemma LastAtomStep(recs: seq<AtomRecord>, atoms: seq<Atom>, i: nat, lo: nat, cur: seq<Atom>,
                     resName: string, done: seq<Run<string>>, acids: seq<Aminoacid>, a: Aminoacid)
    requires ResidueLoop(recs, atoms, i, lo, cur, resName, done, acids) && 0 < i == |atoms| - 1
    requires a.Valid() && a.name == resName && a.atoms == cur && a.chainID == recs[lo].chainID
    requires a.resID == recs[lo].resID
    ensures ResidueLoop(recs, atoms, i + 1, lo, [], resName, done + [Run(lo, i, resName)], acids + [a])
  {
    var ks, tags := ResIDKeys(recs), ResidueTags(recs);
    assert RunsFrom(ks, tags, i, lo, resName) == [Run(lo, i, resName)];
    assert RunsFrom(ks, tags, i + 1, lo, resName) == [];
  }

  lemma SameResidueStep(recs: seq<AtomRecord>, atoms: seq<Atom>, i: nat, lo: nat, cur: seq<Atom>,
                        resName: string, done: seq<Run<string>>, acids: seq<Aminoacid>)
    requires ResidueLoop(recs, atoms, i, lo, cur, resName, done, acids) && 0 < i < |atoms| - 1
    requires recs[i].resID == recs[i - 1].resID
    ensures ResidueLoop(recs, atoms, i + 1, lo, cur + [atoms[i]], recs[i].residue, done, acids)
  {
    var ks, tags := ResIDKeys(recs), ResidueTags(recs);
    assert RunsFrom(ks, tags, i, lo, resName) == RunsFrom(ks, tags, i + 1, lo, tags[i]);
    assert cur + [atoms[i]] == atoms[lo..i + 1];
  }

  lemma NewResidueStep(recs: seq<AtomRecord>, atoms: seq<Atom>, i: nat, lo: nat, cur: seq<Atom>,
                       resName: string, done: seq<Run<string>>, acids: seq<Aminoacid>, a: Aminoacid)
    requires ResidueLoop(recs, atoms, i, lo, cur, resName, done, acids) && 0 < i < |atoms| - 1
    requires recs[i].resID != recs[i - 1].resID
    requires a.Valid() && a.name == resName && a.atoms == cur && a.chainID == recs[lo].chainID
    requires a.resID == recs[lo].resID
    ensures ResidueLoop(recs, atoms, i + 1, i, [atoms[i]], resName, done + [Run(lo, i, resName)], acids + [a])
  {
    var ks, tags := ResIDKeys(recs), ResidueTags(recs);
    assert RunsFrom(ks, tags, i, lo, resName) == [Run(lo, i, resName)] + RunsFrom(ks, tags, i + 1, i, resName);
    assert done + RunsFrom(ks, tags, i, lo, resName) == (done + [Run(lo, i, resName)]) + RunsFrom(ks, tags, i + 1, i, resName);
    assert [atoms[i]] == atoms[i..i + 1];
  }

  /** The residue loop of `buildModel`: an atom whose residue number repeats
      its predecessor's joins the open residue and sets the name variable;
      one whose number differs closes the open residue and opens the next;
      the last atom only closes the open residue. */
  method GroupResidues(atoms: seq<Atom>) returns (acids: seq<Aminoacid>)
    modifies atoms
    ensures Grouped(old(AtomRecords(atoms)), atoms, ResidueRuns(old(AtomRecords(atoms))), acids)
    ensures forall j :: 0 <= j < |atoms| ==> atoms[j].Record() == old(atoms[j].Record())
  {
    ghost var recs := AtomRecords(atoms);
    acids := [];
    var cur: seq<Atom> := [];
    var resName := "";
    ghost var done: seq<Run<string>> := [];
    ghost var lo: nat := 0;
    var i := 0;
    while i < |atoms|
      invariant forall j :: 0 <= j < |atoms| ==> atoms[j].Record() == recs[j]
      invariant ResidueLoop(recs, atoms, i, lo, cur, resName, done, acids)
    {
      if i == 0 {
        FirstAtomStep(recs, atoms);
        cur := [atoms[0]];
      } else if i == |atoms| - 1 {
        var a := MakeResidue(resName, cur, atoms, lo, i);
        LastAtomStep(recs, atoms, i, lo, cur, resName, done, acids, a);
        acids := acids + [a];
        done := done + [Run(lo, i, resName)];
        cur := [];
      } else if atoms[i].resID == atoms[i - 1].resID {
        SameResidueStep(recs, atoms, i, lo, cur, resName, done, acids);
        cur := cur + [atoms[i]];
        resName := atoms[i].residue;
      } else {
        var a := MakeResidue(resName, cur, atoms, lo, i);
        NewResidueStep(recs, atoms, i, lo, cur, resName, done, acids, a);
        acids := acids + [a];
        done := done + [Run(lo, i, resName)];
        cur := [atoms[i]];
        lo := i;
      }
      i := i + 1;
    }
  }

  /** `new Chain(curChain)` on the open chain, residues [lo, hi). */
  method MakeChain(cur: seq<Aminoacid>, near: (Point, Point) -> bool, ghost acids: seq<Aminoacid>,
                   ghost lo: nat, ghost hi: nat, ghost pool: seq<Atom>) returns (c: St.Chain)
    requires lo < hi <= |acids| && cur == acids[lo..hi]
    requires forall a :: a in acids ==> a.Valid()
    requires forall a, x :: a in acids && x in a.atoms ==> x in pool
    modifies pool
    ensures c.Valid() && c.aminoacids == cur && c.atoms == St.AtomsOf(cur) && c.chainID == acids[lo].chainID
    ensures c.acidMap == Put(map[], St.ResIDs(cur), cur)
    ensures forall x :: x in pool ==> Kept(x)
  {
    St.AtomsOfWithin(cur, pool);
    ghost var ms := St.AtomsOf(cur);
    assert forall i :: 0 <= i < |ms| ==> ms[i] in pool;
    c := new St.Chain(cur, near);
    forall x | x in pool && x in ms
      ensures Kept(x)
    {
      var a := St.AtomsOfFrom(cur, x);
    }
  }

  /** The state of the chain loop before iteration i, as for residues. */
  ghost predicate ChainLoop(acids: seq<Aminoacid>, i: nat, lo: nat, cur: seq<Aminoacid>,
                            chainID: string, done: seq<Run<string>>, chains: seq<St.Chain>)
    reads chains
  {
    && i <= |acids| && Chained(acids, done, chains)
    && (i == 0 ==> done == [] && chainID == "" && lo == 0)
    && (0 < i ==> done + RunsFrom(AcidChainIDs(acids), AcidChainIDs(acids), i, lo, chainID)
                  == Runs(AcidChainIDs(acids), AcidChainIDs(acids), ""))
    && (0 < i < |acids| ==> lo < i && cur == acids[lo..i])
  }

  lemma FirstAcidStep(acids: seq<Aminoacid>)
    requires |acids| > 0
    ensures ChainLoop(acids, 1, 0, [acids[0]], "", [], [])
  {
    assert [acids[0]] == acids[0..1];
  }

  lemma LastAcidStep(acids: seq<Aminoacid>, i: nat, lo: nat, cur: seq<Aminoacid>,
                     chainID: string, done: seq<Run<string>>, chains: seq<St.Chain>, c: St.Chain)
    requires ChainLoop(acids, i, lo, cur, chainID, done, chains) && 0 < i == |acids| - 1
    requires c.Valid() && c.aminoacids == cur && c.atoms == St.AtomsOf(cur) && c.chainID == acids[lo].chainID
    requires c.acidMap == Put(map[], St.ResIDs(cur), cur)
    ensures ChainLoop(acids, i + 1, lo, [], chainID, done + [Run(lo, i, chainID)], chains + [c])
  {
    var ks := AcidChainIDs(acids);
    assert RunsFrom(ks, ks, i, lo, chainID) == [Run(lo, i, chainID)];
    assert RunsFrom(ks, ks, i + 1, lo, chainID) == [];
  }

  lemma SameChainStep(acids: seq<Aminoacid>, i: nat, lo: nat, cur: seq<Aminoacid>,
                      chainID: string, done: seq<Run<string>>, chains: seq<St.Chain>)
    requires ChainLoop(acids, i, lo, cur, chainID, done, chains) && 0 < i < |acids| - 1
    requires acids[i].chainID == acids[i - 1].chainID
    ensures ChainLoop(acids, i + 1, lo, cur + [acids[i]], acids[i].chainID, done, chains)
  {
    var ks := AcidChainIDs(acids);
    assert RunsFrom(ks, ks, i, lo, chainID) == RunsFrom(ks, ks, i + 1, lo, ks[i]);
    assert cur + [acids[i]] == acids[lo..i + 1];
  }

  lemma NewChainStep(acids: seq<Aminoacid>, i: nat, lo: nat, cur: seq<Aminoacid>,
                     chainID: string, done: seq<Run<string>>, chains: seq<St.Chain>, c: St.Chain)
    requires ChainLoop(acids, i, lo, cur, chainID, done, chains) && 0 < i < |acids| - 1
    requires acids[i].chainID != acids[i - 1].chainID
    requires c.Valid() && c.aminoacids == cur && c.atoms == St.AtomsOf(cur) && c.chainID == acids[lo].chainID
    requires c.acidMap == Put(map[], St.ResIDs(cur), cur)
    ensures ChainLoop(acids, i + 1, i, [acids[i]], chainID, done + [Run(lo, i, chainID)], chains + [c])
  {
    var ks := AcidChainIDs(acids);
    assert RunsFrom(ks, ks, i, lo, chainID) == [Run(lo, i, chainID)] + RunsFrom(ks, ks, i + 1, i, chainID);
    assert done + RunsFrom(ks, ks, i, lo, chainID) == (done + [Run(lo, i, chainID)]) + RunsFrom(ks, ks, i + 1, i, chainID);
    assert [acids[i]] == acids[i..i + 1];
  }

  /** Closes the open chain at iteration i, the last or one whose residue
      changes chain: the chain made joins those closed so far. */
  method CloseChain(cur: seq<Aminoacid>, near: (Point, Point) -> bool, ghost acids: seq<Aminoacid>, ghost i: nat,
                    ghost lo: nat, ghost chainID: string, ghost done: seq<Run<string>>,
                    ghost chains: seq<St.Chain>, ghost pool: seq<Atom>) returns (c: St.Chain)
    requires ChainLoop(acids, i, lo, cur, chainID, done, chains) && 0 < i < |acids|
    requires i < |acids| - 1 ==> acids[i].chainID != acids[i - 1].chainID
    requires forall a :: a in acids ==> a.Valid()
    requires forall a, x :: a in acids && x in a.atoms ==> x in pool
    modifies pool
    ensures i == |acids| - 1 ==> ChainLoop(acids, i + 1, lo, [], chainID, done + [Run(lo, i, chainID)], chains + [c])
    ensures i < |acids| - 1 ==> ChainLoop(acids, i + 1, i, [acids[i]], chainID, done + [Run(lo, i, chainID)], chains + [c])
    ensures forall x :: x in pool ==> Kept(x)
  {
    c := MakeChain(cur, near, acids, lo, i, pool);
    if i == |acids| - 1 {
      LastAcidStep(acids, i, lo, cur, chainID, done, chains, c);
    } else {
      NewChainStep(acids, i, lo, cur, chainID, done, chains, c);
    }
  }

  /** One iteration of the chain loop of `buildModel`, which is the residue
      loop over residues keyed by chain identifier. */
  method ChainIteration(acids: seq<Aminoacid>, near: (Point, Point) -> bool, i: nat,
                        cur: seq<Aminoacid>, chainID: string, chains: seq<St.Chain>,
                        ghost lo: nat, ghost done: seq<Run<string>>, ghost pool: seq<Atom>)
    returns (cur': seq<Aminoacid>, chainID': string, chains': seq<St.Chain>,
             ghost lo': nat, ghost done': seq<Run<string>>)
    requires ChainLoop(acids, i, lo, cur, chainID, done, chains) && i < |acids|
    requires forall a :: a in acids ==> a.Valid()
    requires forall a, x :: a in acids && x in a.atoms ==> x in pool
    modifies pool
    ensures ChainLoop(acids, i + 1, lo', cur', chainID', done', chains')
    ensures forall x :: x in pool ==> Kept(x)
  {
    cur', chainID', chains', lo', done' := cur, chainID, chains, lo, done;
    if i == 0 {
      FirstAcidStep(acids);
      cur' := [acids[0]];
    } else if i == |acids| - 1 {
      var c := CloseChain(cur, near, acids, i, lo, chainID, done, chains, pool);
      chains' := chains + [c];
      done' := done + [Run(lo, i, chainID)];
      cur' := [];
    } else if acids[i].chainID == acids[i - 1].chainID {
      SameChainStep(acids, i, lo, cur, chainID, done, chains);
      cur' := cur + [acids[i]];
      chainID' := acids[i].chainID;
    } else {
      var c := CloseChain(cur, near, acids, i, lo, chainID, done, chains, pool);
      chains' := chains + [c];
      done' := done + [Run(lo, i, chainID)];
      cur' := [acids[i]];
      lo' := i;
    }
  }

  /** The chain loop of `buildModel`. */
  method GroupChains(acids: seq<Aminoacid>, near: (Point, Point) -> bool, ghost pool: seq<Atom>)
    returns (chains: seq<St.Chain>)
    requires forall a :: a in acids ==> a.Valid()
    requires forall a, x :: a in acids && x in a.atoms ==> x in pool
    modifies pool
    ensures Chained(acids, Runs(AcidChainIDs(acids), AcidChainIDs(acids), ""), chains)
    ensures forall x :: x in pool ==> Kept(x)
  {
    chains := [];
    var cur: seq<Aminoacid> := [];
    var chainID := "";
    ghost var done: seq<Run<string>> := [];
    ghost var lo: nat := 0;
    var i := 0;
    while i < |acids|
      invariant ChainLoop(acids, i, lo, cur, chainID, done, chains)
      invariant forall x :: x in pool ==> Kept(x)
    {
      cur, chainID, chains, lo, done := ChainIteration(acids, near, i, cur, chainID, chains, lo, done, pool);
      i := i + 1;
    }
  }

  /** Every atom of a residue formed is one of the atoms read. */
  lemma GroupedWithin(recs: seq<AtomRecord>, xs: seq<Atom>, runs: seq<Run<string>>, acids: seq<Aminoacid>)
    requires Grouped(recs, xs, runs, acids)
    ensures forall a :: a in acids ==> a.Valid()
    ensures forall a, x :: a in acids && x in a.atoms ==> x in xs
  {
    forall a, x | a in acids && x in a.atoms
      ensures x in xs
    {
      var k :| 0 <= k < |acids| && acids[k] == a;
      var j :| runs[k].lo <= j < runs[k].hi && xs[j] == x;
    }
  }

  /** The residues carry the chain identifiers the records give them. */
  lemma GroupedChainIDs(recs: seq<AtomRecord>, xs: seq<Atom>, acids: seq<Aminoacid>)
    requires Grouped(recs, xs, ResidueRuns(recs), acids)
    ensures AcidChainIDs(acids) == ResidueChainIDs(recs)
  {
  }

  /** The residues the chain loop places in some chain: all but the last,
      and none when there are fewer than two. */
  function Held(acids: seq<Aminoacid>): (r: seq<Aminoacid>)
    ensures |acids| >= 2 ==> r == acids[..|acids| - 1]
    ensures |acids| < 2 ==> r == []
  {
    if |acids| < 2 then [] else acids[..|acids| - 1]
  }

  /** The two grouping loops of `buildModel`, residues then chains. No
      atom's record changes, neither of the atoms grouped nor of any other
      atoms `hets`. */
  method Group(atoms: seq<Atom>, near: (Point, Point) -> bool, ghost hets: seq<Atom>)
    returns (acids: seq<Aminoacid>, chains: seq<St.Chain>)
    modifies atoms
    ensures Grouped(old(AtomRecords(atoms)), atoms, ResidueRuns(old(AtomRecords(atoms))), acids)
    ensures Chained(acids, ChainRuns(old(AtomRecords(atoms))), chains)
    ensures St.ChainAcids(chains) == Held(acids)
    ensures St.ChainAtoms(chains) == St.AtomsOf(Held(acids))
    ensures AtomRecords(atoms) == old(AtomRecords(atoms))
    ensures AtomRecords(hets) == old(AtomRecords(hets))
  {
    ghost var recs := AtomRecords(atoms);
    ghost var hetRecs := AtomRecords(hets);
    acids := GroupResidues(atoms);
    GroupedWithin(recs, atoms, ResidueRuns(recs), acids);
    GroupedChainIDs(recs, atoms, acids);
    chains := GroupChains(acids, near, atoms);
    ChainsHold(acids, chains);
    forall j | 0 <= j < |atoms|
      ensures atoms[j].Record() == recs[j]
    {
      assert atoms[j] in atoms;
    }
    forall j | 0 <= j < |hets|
      ensures hets[j].Record() == hetRecs[j]
    {
      if hets[j] in atoms {
        var i :| 0 <= i < |atoms| && atoms[i] == hets[j];
        assert atoms[i].Record() == recs[i];
      }
    }
  }

  /** Some atom of the chains lies away from the origin, so that `center()`
      finds a furthest atom. */
  ghost predicate Centred(chains: seq<St.Chain>, away: Point -> bool) {
    exists i :: 0 <= i < |St.ChainAtoms(chains)| && away(St.ChainAtoms(chains)[i].position)
  }

  /** The model after `setHetAtoms(hets)` and `setMetaInfo(meta)`: the
      HETATM atoms indexed by their serial numbers `hetSerials` over the
      atoms of the chains, overwriting atoms of equal serial number, the
      meta text, and no secondary structure or links yet. */
  ghost predicate Assembled(m: St.Model, hets: seq<Atom>, hetSerials: seq<int>, meta: string)
    reads m
  {
    && |m.serials| == |m.atoms| && |hetSerials| == |hets|
    && m.atomMap == Put(Put(map[], m.serials, m.atoms), hetSerials, hets)
    && m.hetatoms == hets && m.metaInfo == meta
    && m.helices == [] && m.sheets == [] && m.explicit == []
  }

  /** The model as its constructor leaves it. */
  ghost predicate Built(m: St.Model, chains: seq<St.Chain>)
    reads m, chains, m.atoms
  {
    && m.Valid() && m.chains == chains
    && m.chainIDs == St.ChainIDs(chains) && m.chainMap == Put(map[], m.chainIDs, chains)
    && m.atoms == St.ChainAtoms(chains)
    && m.acidMap == Put(map[], St.ResIDs(m.acids), m.acids)
    && m.serials == St.Serials(m.atoms) && m.atomMap == Put(map[], m.serials, m.atoms)
    && m.hetatoms == [] && m.metaInfo == ""
    && m.helices == [] && m.sheets == [] && m.explicit == []
  }

  /** `new Model(chains)`, whose `center()` throws unless some atom lies
      away from the origin. */
  method NewModel(chains: seq<St.Chain>, away: Point -> bool) returns (m: St.Model?)
    requires forall c :: c in chains ==> c.Valid()
    ensures m != null <==> Centred(chains, away)
    ensures m != null ==> fresh(m) && Built(m, chains) && m.acids == St.ChainAcids(chains)
  {
    m := new St.Model(chains);
    var ok := m.Center(away);
    if !ok {
      m := null;
    }
  }

  /** `setHetAtoms(hetatmList)` and `setMetaInfo(meta)` on the new model. */
  method Finish(m: St.Model, ghost chains: seq<St.Chain>, hets: seq<Atom>, meta: string)
    requires Built(m, chains)
    modifies m
    ensures Assembled(m, hets, St.Serials(hets), meta)
    ensures m.serials == St.Serials(m.atoms)
  {
    ghost var index := m.atomMap;
    m.SetHetAtoms(hets);
    assert m.atomMap == Put(index, St.Serials(hets), hets);
    m.SetMetaInfo(meta);
  }

  /** The end of `buildModel`: the model over the chains formed from the
      atoms `xs` read as `recs`, then its HETATM atoms and meta text. */
  method Assemble(chains: seq<St.Chain>, hets: seq<Atom>, meta: string, away: Point -> bool,
                  ghost recs: seq<AtomRecord>, ghost xs: seq<Atom>, ghost acids: seq<Aminoacid>)
    returns (m: St.Model?)
    requires Grouped(recs, xs, ResidueRuns(recs), acids)
    requires Chained(acids, ChainRuns(recs), chains)
    requires St.ChainAcids(chains) == Held(acids)
    requires AtomRecords(xs) == recs
    ensures m != null <==> Centred(chains, away)
    ensures m != null ==> fresh(m) && Assembled(m, hets, St.Serials(hets), meta)
    ensures m != null ==> Over(m, recs, xs, acids, chains)
  {
    m := NewModel(chains, away);
    if m != null {
      BuiltOver(m, recs, xs, acids, chains);
      Finish(m, chains, hets, meta);
    }
  }

  /** The model built over the chains formed from the atoms `xs`, read as
      `recs`, holds what `Over` says. */
  lemma BuiltOver(m: St.Model, recs: seq<AtomRecord>, xs: seq<Atom>, acids: seq<Aminoacid>, chains: seq<St.Chain>)
    requires Grouped(recs, xs, ResidueRuns(recs), acids)
    requires Chained(acids, ChainRuns(recs), chains)
    requires St.ChainAcids(chains) == Held(acids)
    requires AtomRecords(xs) == recs
    requires Built(m, chains) && m.acids == St.ChainAcids(chains)
    ensures Over(m, recs, xs, acids, chains)
  {
    ChainedIDs(acids, ChainRuns(recs), chains);
    HeldAtoms(recs, xs, acids, chains);
    forall i | 0 <= i < HeldCount(recs)
      ensures m.serials[i] == recs[i].serial
    {
      assert m.atoms[i] == xs[i];
      assert xs[i].Record() == recs[i];
    }
  }

  /** The atoms of the residues formed are those of their groups, in order. */
  lemma {:induction false} GroupedPieces(recs: seq<AtomRecord>, xs: seq<Atom>, runs: seq<Run<string>>, acids: seq<Aminoacid>)
    requires Grouped(recs, xs, runs, acids)
    ensures St.AtomsOf(acids) == Concat(Pieces(xs, runs))
    decreases |acids|
  {
    if acids != [] {
      var n := |acids| - 1;
      assert Grouped(recs, xs, runs[..n], acids[..n]);
      GroupedPieces(recs, xs, runs[..n], acids[..n]);
      assert Pieces(xs, runs)[..n] == Pieces(xs, runs[..n]);
    }
  }

  /** The residues of the chains formed are those of their groups, and
      their atoms those of the residues. */
  lemma {:induction false} ChainedPieces(acids: seq<Aminoacid>, runs: seq<Run<string>>, chains: seq<St.Chain>)
    requires Chained(acids, runs, chains)
    ensures St.ChainAcids(chains) == Concat(Pieces(acids, runs))
    ensures St.ChainAtoms(chains) == St.AtomsOf(St.ChainAcids(chains))
    decreases |chains|
  {
    if chains != [] {
      var n := |chains| - 1;
      assert Chained(acids, runs[..n], chains[..n]);
      ChainedPieces(acids, runs[..n], chains[..n]);
      assert Pieces(acids, runs)[..n] == Pieces(acids, runs[..n]);
      St.AtomsOfAppend(St.ChainAcids(chains[..n]), chains[n].aminoacids);
    }
  }

  /** The chain loop places every residue but the last in a chain, in
      order; with fewer than two residues it forms no chain. */
  lemma ChainsHold(acids: seq<Aminoacid>, chains: seq<St.Chain>)
    requires Chained(acids, Runs(AcidChainIDs(acids), AcidChainIDs(acids), ""), chains)
    ensures St.ChainAcids(chains) == Held(acids)
    ensures St.ChainAtoms(chains) == St.AtomsOf(Held(acids))
  {
    var ks := AcidChainIDs(acids);
    var runs := Runs(ks, ks, "");
    ChainedPieces(acids, runs, chains);
    if |acids| < 2 {
      RunsShort(ks, ks, "");
    } else {
      RunsTile(ks, ks, "");
      ConcatPieces(acids, runs, 0, |acids| - 1);
    }
  }

  /** The residue loop places every atom but the last in a residue, in
      order: the atoms of all residues but the last are those read before
      the last residue's first atom. */
  lemma ResiduesHold(recs: seq<AtomRecord>, xs: seq<Atom>, acids: seq<Aminoacid>)
    requires Grouped(recs, xs, ResidueRuns(recs), acids) && |acids| > 0
    ensures ResidueRuns(recs)[|acids| - 1].lo <= |xs|
    ensures St.AtomsOf(acids[..|acids| - 1]) == xs[..ResidueRuns(recs)[|acids| - 1].lo]
  {
    var runs := ResidueRuns(recs);
    var n := |acids| - 1;
    RunsPrefixTile(ResIDKeys(recs), ResidueTags(recs), "", n);
    assert Grouped(recs, xs, runs[..n], acids[..n]);
    GroupedPieces(recs, xs, runs[..n], acids[..n]);
    ConcatPieces(xs, runs[..n], 0, runs[n].lo);
  }


  /** The atoms of the chains formed are those of their groups of
      residues, in order. */
  lemma {:induction false} FormedPieces(acids: seq<Aminoacid>, runs: seq<Run<string>>, chains: seq<St.Chain>)
    requires Formed(acids, runs, chains)
    ensures St.ChainAtoms(chains) == St.AtomsOf(Concat(Pieces(acids, runs)))
    decreases |chains|
  {
    if chains != [] {
      var n := |chains| - 1;
      assert Formed(acids, runs[..n], chains[..n]);
      FormedPieces(acids, runs[..n], chains[..n]);
      assert Pieces(acids, runs)[..n] == Pieces(acids, runs[..n]);
      St.AtomsOfAppend(Concat(Pieces(acids, runs[..n])), acids[runs[n].lo..runs[n].hi]);
    }
  }

  /** The chains formed hold the atoms of every residue but the last. */
  lemma FormedAtoms(recs: seq<AtomRecord>, xs: seq<Atom>, acids: seq<Aminoacid>, chains: seq<St.Chain>)
    requires Grouped(recs, xs, ResidueRuns(recs), acids)
    requires Formed(acids, ChainRuns(recs), chains)
    ensures St.ChainAtoms(chains) == St.AtomsOf(Held(acids))
  {
    GroupedChainIDs(recs, xs, acids);
    var ks := AcidChainIDs(acids);
    var runs := Runs(ks, ks, "");
    FormedPieces(acids, runs, chains);
    if |acids| < 2 {
      RunsShort(ks, ks, "");
    } else {
      RunsTile(ks, ks, "");
      ConcatPieces(acids, runs, 0, |acids| - 1);
    }
  }

  /** How many of the atoms read end up in a chain: those before the last
      residue's first atom, and none when fewer than two residues form. */
  ghost function HeldCount(recs: seq<AtomRecord>): nat {
    var runs := ResidueRuns(recs);
    if |runs| < 2 then 0 else runs[|runs| - 1].lo
  }

  /** Some ATOM record that ends up in a chain lies away from the origin. */
  ghost predicate AwayAtom(recs: seq<AtomRecord>, away: Point -> bool) {
    exists i :: 0 <= i < HeldCount(recs) && i < |recs| && away(recs[i].position)
  }

  /** Some of the first n atoms lies away from the origin exactly when
      some of the first n records they were made from does. */
  lemma AwayPrefix(xs: seq<Atom>, recs: seq<AtomRecord>, n: nat, away: Point -> bool)
    requires Holds(xs, recs) && n <= |xs|
    ensures (exists i :: 0 <= i < |xs[..n]| && away(xs[..n][i].position)) <==>
            (exists i :: 0 <= i < n && i < |recs| && away(recs[i].position))
  {
    if exists i :: 0 <= i < n && i < |recs| && away(recs[i].position) {
      var i :| 0 <= i < n && i < |recs| && away(recs[i].position);
      assert xs[..n][i] == xs[i];
    }
  }

  /** Whether `buildModel()` can centre the model is decided by the ATOM
      records alone: some record before the last residue's first atom lies
      away from the origin. */
  lemma CentredIff(recs: seq<AtomRecord>, xs: seq<Atom>, acids: seq<Aminoacid>, chains: seq<St.Chain>, away: Point -> bool)
    requires Holds(xs, recs) && Grouped(recs, xs, ResidueRuns(recs), acids)
    requires Formed(acids, ChainRuns(recs), chains)
    ensures Centred(chains, away) <==> AwayAtom(recs, away)
  {
    HeldAtoms(recs, xs, acids, chains);
    AwayPrefix(xs, recs, HeldCount(recs), away);
  }

  /** The chains formed hold exactly the atoms read before the last
      residue's first atom. */
  lemma HeldAtoms(recs: seq<AtomRecord>, xs: seq<Atom>, acids: seq<Aminoacid>, chains: seq<St.Chain>)
    requires Grouped(recs, xs, ResidueRuns(recs), acids)
    requires Formed(acids, ChainRuns(recs), chains)
    ensures HeldCount(recs) <= |xs| && St.ChainAtoms(chains) == xs[..HeldCount(recs)]
  {
    FormedAtoms(recs, xs, acids, chains);
    if |acids| >= 2 {
      ResiduesHold(recs, xs, acids);
    }
  }

  /** The serial numbers of the records, in order. */
  function RecordSerials(recs: seq<AtomRecord>): (r: seq<int>)
    ensures |r| == |recs|
    ensures forall i :: 0 <= i < |recs| ==> r[i] == recs[i].serial
  {
    seq(|recs|, i requires 0 <= i < |recs| => recs[i].serial)
  }

  /** The model `buildModel` builds over the residues and chains it forms
      from the records `recs` of the atoms `xs`: the chains in order,
      indexed by the identifiers of their first residues; the residues
      placed in a chain, indexed by number; the atoms read before the last
      residue, which the atom index keys by the serial numbers read. */
  ghost predicate Over(m: St.Model, recs: seq<AtomRecord>, xs: seq<Atom>, acids: seq<Aminoacid>, chains: seq<St.Chain>) {
    && m.Valid() && m.chains == chains
    && m.chainIDs == LeadIDs(acids, ChainRuns(recs))
    && |m.chainIDs| == |chains| && m.chainMap == Put(map[], m.chainIDs, chains)
    && m.acids == Held(acids) && m.acidMap == Put(map[], St.ResIDs(m.acids), m.acids)
    && HeldCount(recs) <= |xs| && HeldCount(recs) <= |recs|
    && m.atoms == xs[..HeldCount(recs)] && m.serials == RecordSerials(recs[..HeldCount(recs)])
    && |m.serials| == |m.atoms|
  }

  /** Every helix and sheet range read resolves against the model. */
  ghost predicate Resolved(m: St.Model?, hs: seq<HelixRange>, ss: seq<SheetRange>)
    reads m
  {
    && m != null && m.Valid()
    && (forall k :: 0 <= k < |hs| ==> m.HelixResolves(hs[k]))
    && (forall k :: 0 <= k < |ss| ==> m.SheetResolves(ss[k]))
  }

  /** `model.setHelices(helices)`, then `model.setSheets(sheets)`, the
      second only when the first does not throw. */
  method Resolve(m: St.Model, hs: seq<Helix>, ss: seq<Sheet>) returns (ok: bool)
    requires m.Valid()
    modifies m, hs, ss
    ensures ok <==> Resolved(m, old(HelixRanges(hs)), old(SheetRanges(ss)))
    ensures HelixRanges(hs) == old(HelixRanges(hs)) && SheetRanges(ss) == old(SheetRanges(ss))
    ensures ok ==> m.helices == hs && m.sheets == ss
    ensures ok ==> forall k :: 0 <= k < |hs| ==> m.HelixPlaced(hs[k])
    ensures ok ==> forall k :: 0 <= k < |ss| ==> m.SheetPlaced(ss[k])
    ensures m.hetatoms == old(m.hetatoms) && m.metaInfo == old(m.metaInfo) && m.explicit == old(m.explicit)
    ensures m.atomMap == old(m.atomMap)
  {
    ghost var hr, sr := HelixRanges(hs), SheetRanges(ss);
    ok := m.SetHelices(hs);
    assert HelixRanges(hs) == hr;
    if !ok {
      return;
    }
    ok := m.SetSheets(ss);
    assert SheetRanges(ss) == sr;
  }

  /** `buildModel()` on the atoms and HETATM atoms read: residues, chains,
      then the model; null where centring the model throws. */
  method BuildFrom(atoms: seq<Atom>, hets: seq<Atom>, meta: string, near: (Point, Point) -> bool, away: Point -> bool)
    returns (m: St.Model?, ghost acids: seq<Aminoacid>, ghost chains: seq<St.Chain>, ghost hetSerials: seq<int>)
    modifies atoms
    ensures Grouped(old(AtomRecords(atoms)), atoms, ResidueRuns(old(AtomRecords(atoms))), acids)
    ensures Chained(acids, ChainRuns(old(AtomRecords(atoms))), chains)
    ensures AtomRecords(atoms) == old(AtomRecords(atoms)) && AtomRecords(hets) == old(AtomRecords(hets))
    ensures m != null <==> Centred(chains, away)
    ensures hetSerials == RecordSerials(old(AtomRecords(hets)))
    ensures m != null ==> fresh(m) && Assembled(m, hets, hetSerials, meta)
    ensures m != null ==> Over(m, old(AtomRecords(atoms)), atoms, acids, chains)
  {
    ghost var recs := AtomRecords(atoms);
    var acidList, chainList := Group(atoms, near, hets);
    acids, chains := acidList, chainList;
    hetSerials := St.Serials(hets);
    RecordSerialsOf(hets);
    m := Assemble(chainList, hets, meta, away, recs, atoms, acidList);
  }

  /** The serial numbers of atoms are those of their records. */
  lemma RecordSerialsOf(xs: seq<Atom>)
    ensures St.Serials(xs) == RecordSerials(AtomRecords(xs))
  {
  }

  class Parser {
    var meta: string
    var inModel: bool
    var multiModel: bool
    var modelCount: nat
    var lineCount: nat
    var atomList: seq<Atom>
    var hetatmList: seq<Atom>
    var links: seq<Bond>
    var sheets: seq<Sheet>
    var helices: seq<Helix>
    var model: St.Model?

    /** The fields `readFile` fills, as the value the line-by-line
        definition of the read computes. */
    ghost function State(): Collected
      reads this, atomList, hetatmList, helices, sheets
    {
      Collected(meta, inModel, multiModel, modelCount, lineCount,
                AtomRecords(atomList), AtomRecords(hetatmList), SerialPairs(links),
                HelixRanges(helices), SheetRanges(sheets))
    }

    /** Every atom, helix and sheet the lists hold was held before or is
        new. */
    twostate predicate Grown()
      reads this
    {
      && (forall x :: x in atomList ==> x in old(atomList) || fresh(x))
      && (forall h :: h in helices ==> h in old(helices) || fresh(h))
      && (forall t :: t in sheets ==> t in old(sheets) || fresh(t))
    }

    /** The field initialisers and the start of `Parser(filename)`: the
        model section flag set, no model ended, every list empty. */
    constructor()
      ensures State() == Start && model == null
    {
      meta := "";
      inModel := true;
      multiModel := false;
      modelCount := 0;
      lineCount := 0;
      atomList := [];
      hetatmList := [];
      links := [];
      sheets := [];
      helices := [];
      model := null;
    }

    /** One iteration of the `readFile` loop: counts the line, then takes
        the case of the switch its record type selects. `ok` is false where
        the source throws. */
    method ReadLine(l: Line) returns (ok: bool)
      requires WellTyped(l)
      modifies this
      ensures ok <==> Step(old(State()), l).Some?
      ensures ok ==> State() == Step(old(State()), l).value
      ensures model == old(model) && Grown()
    {
      CountLine();
      if |l.text| < 6 {
        return false;
      }
      ok := Dispatch(l);
    }

    /** The `lineCount++` at the head of each iteration. */
    method CountLine()
      modifies this
      ensures State() == old(State()).(lineCount := old(lineCount) + 1)
      ensures modelCount == old(modelCount) && model == old(model) && Grown()
    {
      lineCount := lineCount + 1;
    }

    /** The switch of the `readFile` loop, on a line long enough to have a
        record type. */
    method Dispatch(l: Line) returns (ok: bool)
      requires WellTyped(l)
      modifies this
      ensures ok <==> !l.parsed.Malformed? || (l.kind == AtomLine && old(modelCount) > 0)
      ensures ok ==> State() == Extended(old(State()), l)
      ensures model == old(model) && Grown()
    {
      match l.kind {
        case Header =>
          if l.parsed.Malformed? {
            return false;
          }
          AddMeta(l);
        case Title =>
          if l.parsed.Malformed? {
            return false;
          }
          AddMeta(l);
        case Remark =>
          if l.parsed.Malformed? {
            return false;
          }
          AddMeta(l);
        case Link =>
          if l.parsed.Malformed? {
            return false;
          }
          ExtendedKeeps(State(), l);
        case ModelStart =>
          OpenModel(l);
        case Seqres =>
          if l.parsed.Malformed? {
            return false;
          }
          ExtendedKeeps(State(), l);
        case HelixLine =>
          if l.parsed.Malformed? {
            return false;
          }
          AddHelix(l);
        case SheetLine =>
          if l.parsed.Malformed? {
            return false;
          }
          AddSheet(l);
        case Hetatm =>
          if l.parsed.Malformed? {
            return false;
          }
          AddHetatm(l);
        case AtomLine =>
          if modelCount == 0 {
            if l.parsed.Malformed? {
              return false;
            }
            AddAtom(l);
          } else {
            ExtendedKeeps(State(), l);
          }
        case Conect =>
          if l.parsed.Malformed? {
            return false;
          }
          AddLinks(l);
        case Endmdl =>
          CloseModel(l);
        case Other =>
          ExtendedKeeps(State(), l);
      }
      ok := true;
    }

    /** `parseHEADER`, `parseTITLE`, `parseREMARK`: the slice and a newline
        appended to the meta text. */
    method AddMeta(l: Line)
      requires l.parsed.Slice? && (l.kind == Header || l.kind == Title || l.kind == Remark)
      modifies this
      ensures State() == Extended(old(State()), l) && model == old(model) && Grown()
    {
      meta := meta + l.parsed.text;
    }

    /** The MODEL case: inside a model section, and more than one model. */
    method OpenModel(l: Line)
      requires l.kind == ModelStart && l.parsed.Unparsed?
      modifies this
      ensures State() == Extended(old(State()), l) && model == old(model) && Grown()
    {
      inModel := true;
      multiModel := true;
    }

    /** The ENDMDL case: one more model ended, outside a model section. */
    method CloseModel(l: Line)
      requires l.kind == Endmdl && l.parsed.Unparsed?
      modifies this
      ensures State() == Extended(old(State()), l) && model == old(model) && Grown()
    {
      modelCount := modelCount + 1;
      inModel := false;
    }

    /** `parseHELIX`: a new helix over the range read. */
    method AddHelix(l: Line)
      requires l.kind == HelixLine && l.parsed.HelixData?
      modifies this
      ensures State() == Extended(old(State()), l) && model == old(model) && Grown()
    {
      var r := l.parsed.helix;
      var h := new Helix(r.initSeqNum, r.endSeqNum, r.startChainID, r.endChainID);
      helices := helices + [h];
    }

    /** `parseSHEET`: a new sheet over the range read. */
    method AddSheet(l: Line)
      requires l.kind == SheetLine && l.parsed.SheetData?
      modifies this
      ensures State() == Extended(old(State()), l) && model == old(model) && Grown()
    {
      var r := l.parsed.sheet;
      var s := new Sheet(r.id, r.initSeqNum, r.endSeqNum, r.initChainID, r.endChainID);
      sheets := sheets + [s];
    }

    /** `parseHETATM`: a new atom with the fields read. */
    method AddHetatm(l: Line)
      requires l.kind == Hetatm && l.parsed.AtomData?
      modifies this
      ensures State() == Extended(old(State()), l) && model == old(model) && Grown()
    {
      var a := l.parsed.atom;
      var x := new Atom(a.position, a.name, a.element, a.serial, a.residue, a.resID, a.chainID);
      hetatmList := hetatmList + [x];
    }

    /** `parseATOM`, reached only while no model has ended: a new atom with
        the fields read. */
    method AddAtom(l: Line)
      requires l.kind == AtomLine && l.parsed.AtomData? && modelCount == 0
      modifies this
      ensures State() == Extended(old(State()), l) && model == old(model) && Grown()
    {
      var a := l.parsed.atom;
      var x := new Atom(a.position, a.name, a.element, a.serial, a.residue, a.resID, a.chainID);
      atomList := atomList + [x];
    }

    /** `parseCONECT`: one serial-number bond per bonded atom named. */
    method AddLinks(l: Line)
      requires l.kind == Conect && l.parsed.Bonds?
      modifies this
      ensures State() == Extended(old(State()), l) && model == old(model) && Grown()
    {
      var bs := MakeLinks(l.parsed.pairs);
      links := links + bs;
    }

    /** `buildModel()`: groups the first model's atoms into residues and
        the residues into chains, then builds the model. The field is set
        only when that does not throw. */
    method BuildModel(near: (Point, Point) -> bool, away: Point -> bool)
      returns (ok: bool, ghost acids: seq<Aminoacid>, ghost chains: seq<St.Chain>, ghost hetSerials: seq<int>)
      modifies this, atomList
      ensures atomList == old(atomList) && hetatmList == old(hetatmList) && links == old(links)
      ensures helices == old(helices) && sheets == old(sheets) && meta == old(meta)
      ensures Grouped(old(AtomRecords(atomList)), atomList, ResidueRuns(old(AtomRecords(atomList))), acids)
      ensures Formed(acids, ChainRuns(old(AtomRecords(atomList))), chains)
      ensures AtomRecords(atomList) == old(AtomRecords(atomList))
      ensures ok <==> Centred(chains, away)
      ensures !ok ==> model == old(model)
      ensures hetSerials == RecordSerials(old(AtomRecords(hetatmList)))
      ensures ok ==> model != null && fresh(model) && Assembled(model, hetatmList, hetSerials, meta)
      ensures ok ==> Over(model, old(AtomRecords(atomList)), atomList, acids, chains)
    {
      ghost var recs, hetRecs := AtomRecords(atomList), AtomRecords(hetatmList);
      var m;
      ghost var xs := atomList;
      m, acids, chains, hetSerials := BuildFrom(atomList, hetatmList, meta, near, away);
      assert Grouped(recs, xs, ResidueRuns(recs), acids) && Formed(acids, ChainRuns(recs), chains);
      assert hetSerials == RecordSerials(hetRecs);
      assert m != null ==> Over(m, recs, xs, acids, chains);
      ok := m != null;
      if ok {
        model := m;
      }
    }

    /** The end of the `Parser(filename)` constructor: `buildModel()`, then
        the helices and the sheets resolved against the model. `ok` is false
        where the source throws: no atom away from the origin, or a helix or
        sheet whose end lies in a chain the model lacks. */
    method Complete(near: (Point, Point) -> bool, away: Point -> bool)
      returns (ok: bool, ghost acids: seq<Aminoacid>, ghost chains: seq<St.Chain>)
      modifies this, atomList, helices, sheets
      ensures atomList == old(atomList) && hetatmList == old(hetatmList)
      ensures meta == old(meta) && links == old(links)
      ensures Grouped(old(AtomRecords(atomList)), atomList, ResidueRuns(old(AtomRecords(atomList))), acids)
      ensures Formed(acids, ChainRuns(old(AtomRecords(atomList))), chains)
      ensures ok <==> Centred(chains, away) && Resolved(model, old(HelixRanges(helices)), old(SheetRanges(sheets)))
      ensures AtomRecords(atomList) == old(AtomRecords(atomList))
      ensures !Centred(chains, away) ==> model == old(model)
      ensures Centred(chains, away) ==> model != null && fresh(model) && Over(model, old(AtomRecords(atomList)), atomList, acids, chains)
      ensures ok ==> model.atomMap == Put(Put(map[], model.serials, model.atoms), RecordSerials(old(AtomRecords(hetatmList))), hetatmList)
      ensures ok ==> model.helices == helices && model.sheets == sheets && model.metaInfo == meta
      ensures ok ==> model.hetatoms == hetatmList && model.explicit == []
      ensures ok ==> forall k :: 0 <= k < |helices| ==> model.HelixPlaced(helices[k])
      ensures ok ==> forall k :: 0 <= k < |sheets| ==> model.SheetPlaced(sheets[k])
      ensures HelixRanges(helices) == old(HelixRanges(helices)) && SheetRanges(sheets) == old(SheetRanges(sheets))
    {
      ghost var recs, hetRecs := AtomRecords(atomList), AtomRecords(hetatmList);
      ghost var hr, sr := HelixRanges(helices), SheetRanges(sheets);
      ghost var hetSerials;
      ok, acids, chains, hetSerials := BuildModel(near, away);
      ghost var xs := atomList;
      assert Grouped(recs, xs, ResidueRuns(recs), acids) && Formed(acids, ChainRuns(recs), chains);
      assert hetSerials == RecordSerials(hetRecs);
      assert HelixRanges(helices) == hr && SheetRanges(sheets) == sr;
      if !ok {
        return;
      }
      ghost var m := model;
      assert Over(m, recs, xs, acids, chains);
      assert m.atomMap == Put(Put(map[], m.serials, m.atoms), hetSerials, hetatmList);
      ok := PlaceSecondary();
      assert atomList == xs;
    }

    /** `model.setHelices(helices)` and `model.setSheets(helices)` on the
        model just built; nothing the parser holds is reassigned. */
    method PlaceSecondary() returns (ok: bool)
      requires model != null && model.Valid()
      modifies model, helices, sheets
      ensures ok <==> Resolved(model, old(HelixRanges(helices)), old(SheetRanges(sheets)))
      ensures HelixRanges(helices) == old(HelixRanges(helices)) && SheetRanges(sheets) == old(SheetRanges(sheets))
      ensures ok ==> model.helices == helices && model.sheets == sheets
      ensures ok ==> forall k :: 0 <= k < |helices| ==> model.HelixPlaced(helices[k])
      ensures ok ==> forall k :: 0 <= k < |sheets| ==> model.SheetPlaced(sheets[k])
      ensures model.hetatoms == old(model.hetatoms) && model.metaInfo == old(model.metaInfo)
      ensures model.explicit == old(model.explicit) && model.atomMap == old(model.atomMap)
      ensures model == old(model) && helices == old(helices) && sheets == old(sheets)
      ensures meta == old(meta) && links == old(links)
      ensures atomList == old(atomList) && hetatmList == old(hetatmList)
      ensures AtomRecords(atomList) == old(AtomRecords(atomList))
    {
      ok := Resolve(model, helices, sheets);
    }

    /** `readFile()` over the lines the reader yields: every line in order,
        stopping at the first that throws. */
    method ReadFile(lines: seq<string>, isDecimal: string -> bool) returns (ok: bool)
      modifies this
      ensures ok <==> ReadAll(old(State()), TypedAll(lines, isDecimal)).Some?
      ensures ok ==> State() == ReadAll(old(State()), TypedAll(lines, isDecimal)).value
      ensures model == old(model) && Grown()
    {
      ghost var c0 := State();
      ghost var ls := TypedAll(lines, isDecimal);
      var i := 0;
      while i < |lines|
        invariant i <= |lines|
        invariant ReadAll(c0, ls[..i]) == Some(State())
        invariant model == old(model) && Grown()
      {
        ReadAllNext(c0, ls, i, State());
        TypedWellTyped(lines[i], isDecimal);
        ghost var d := State();
        ok := ReadLine(Typed(lines[i], isDecimal));
        if !ok {
          ReadAllFails(c0, ls, i, d);
          return;
        }
        i := i + 1;
      }
      assert ls[..i] == ls;
      ok := true;
    }
  }

  /** `new Parser(filename)` on the lines the file holds: the fields set up,
      `readFile()`, `buildModel()`, then the helices and the sheets set on
      the model. The result is null where the constructor throws: a line
      whose record cannot be parsed, no atom away from the origin, or a
      helix or sheet end in a chain the model lacks. Whenever the lines are
      read, `atoms`, `acids` and `chains` are the atoms, residues and
      chains `buildModel()` forms from the ATOM records, and `m` is the
      model it builds over them, null exactly when no record that ends up
      in a chain lies away from the origin. */
  method Open(lines: seq<string>, isDecimal: string -> bool, near: (Point, Point) -> bool, away: Point -> bool)
    returns (p: Parser?, ghost atoms: seq<Atom>, ghost m: St.Model?,
             ghost acids: seq<Aminoacid>, ghost chains: seq<St.Chain>)
    ensures ReadAll(Start, TypedAll(lines, isDecimal)).None? ==> p == null
    ensures ReadAll(Start, TypedAll(lines, isDecimal)).Some? ==>
      var c := ReadAll(Start, TypedAll(lines, isDecimal)).value;
      && Holds(atoms, c.atoms) && AtomRecords(atoms) == c.atoms
      && Grouped(c.atoms, atoms, ResidueRuns(c.atoms), acids)
      && Formed(acids, ChainRuns(c.atoms), chains)
      && (m != null <==> AwayAtom(c.atoms, away))
      && (p != null <==> AwayAtom(c.atoms, away) && Resolved(m, c.helices, c.sheets))
    ensures m != null ==>
      && fresh(m) && ReadAll(Start, TypedAll(lines, isDecimal)).Some?
      && Over(m, ReadAll(Start, TypedAll(lines, isDecimal)).value.atoms, atoms, acids, chains)
    ensures p != null ==> fresh(p) && p.model == m && p.atomList == atoms
    ensures p != null ==>
      var c := ReadAll(Start, TypedAll(lines, isDecimal)).value;
      && p.meta == c.meta && |p.hetatmList| == |c.hetatms| && SerialPairs(p.links) == c.links
      && HelixRanges(p.helices) == c.helices && SheetRanges(p.sheets) == c.sheets
    ensures p != null ==>
      && m.atomMap == Put(Put(map[], m.serials, m.atoms), RecordSerials(ReadAll(Start, TypedAll(lines, isDecimal)).value.hetatms), p.hetatmList)
      && m.helices == p.helices && m.sheets == p.sheets
      && m.metaInfo == p.meta && m.hetatoms == p.hetatmList && m.explicit == []
      && (forall k :: 0 <= k < |p.helices| ==> m.HelixPlaced(p.helices[k]))
      && (forall k :: 0 <= k < |p.sheets| ==> m.SheetPlaced(p.sheets[k]))
  {
    p := new Parser();
    var ok := p.ReadFile(lines, isDecimal);
    if !ok {
      return null, [], null, [], [];
    }
    atoms := p.atomList;
    ghost var recs := AtomRecords(atoms);
    assert Holds(atoms, recs);
    forall i | 0 <= i < |p.atomList|
      ensures fresh(p.atomList[i])
    {
      assert p.atomList[i] in p.atomList;
    }
    forall i | 0 <= i < |p.helices|
      ensures fresh(p.helices[i])
    {
      assert p.helices[i] in p.helices;
    }
    forall i | 0 <= i < |p.sheets|
      ensures fresh(p.sheets[i])
    {
      assert p.sheets[i] in p.sheets;
    }
    ok, acids, chains := p.Complete(near, away);
    CentredIff(recs, atoms, acids, chains, away);
    m := p.model;
    if !ok {
      p := null;
    }
  }
}
