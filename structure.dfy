/** The tertiary structure: chains of residues with their backbone, and the
    model that indexes a whole structure and resolves the secondary
    structure and explicit links against it. */
module Structure {
  import opened Results
  import opened Records
  import opened Indexing
  import opened Primary
  import opened Secondary

  /** The atoms of a list of residues, residue after residue. */
  function AtomsOf(acids: seq<Aminoacid>): seq<Atom> {
    if acids == [] then [] else AtomsOf(acids[..|acids| - 1]) + acids[|acids| - 1].atoms
  }

  lemma {:induction false} AtomsOfContains(acids: seq<Aminoacid>)
    ensures forall a, x :: a in acids && x in a.atoms ==> x in AtomsOf(acids)
  {
    if acids != [] {
      var n := |acids| - 1;
      AtomsOfContains(acids[..n]);
      assert acids == acids[..n] + [acids[n]];
    }
  }

  /** The atoms of two lists of residues are those of the first, then
      those of the second. */
  lemma {:induction false} AtomsOfAppend(a: seq<Aminoacid>, b: seq<Aminoacid>)
    ensures AtomsOf(a + b) == AtomsOf(a) + AtomsOf(b)
    decreases |b|
  {
    if b == [] {
      assert a + b == a;
    } else {
      var n := |b| - 1;
      assert (a + b)[..|a + b| - 1] == a + b[..n];
      AtomsOfAppend(a, b[..n]);
    }
  }

  lemma {:induction false} AtomsOfWithin(acids: seq<Aminoacid>, pool: seq<Atom>)
    requires forall a, x :: a in acids && x in a.atoms ==> x in pool
    ensures forall x :: x in AtomsOf(acids) ==> x in pool
  {
    if acids != [] {
      var n := |acids| - 1;
      assert acids[n] in acids;
      AtomsOfWithin(acids[..n], pool);
    }
  }

  /** Every atom of the residues' atoms comes from one of the residues. */
  lemma {:induction false} AtomsOfFrom(acids: seq<Aminoacid>, x: Atom) returns (a: Aminoacid)
    requires x in AtomsOf(acids)
    ensures a in acids && x in a.atoms
  {
    var n := |acids| - 1;
    if x in acids[n].atoms {
      a := acids[n];
    } else {
      a := AtomsOfFrom(acids[..n], x);
    }
  }

  /** The bonds of a list of residues, residue after residue. */
  function BondsOf(acids: seq<Aminoacid>): seq<Bond>
    reads acids
  {
    if acids == [] then [] else BondsOf(acids[..|acids| - 1]) + acids[|acids| - 1].bonds
  }

  /** The residue numbers of a list of residues, in order. */
  function ResIDs(acids: seq<Aminoacid>): (r: seq<int>)
    ensures |r| == |acids|
    ensures forall i :: 0 <= i < |acids| ==> r[i] == acids[i].resID
  {
    seq(|acids|, i requires 0 <= i < |acids| => acids[i].resID)
  }

  /** The names of the backbone atoms. */
  predicate BackboneName(n: string) {
    n == "N" || n == "CA" || n == "C"
  }

  /** The backbone atoms of a list, in order. */
  function Backbone(atoms: seq<Atom>): seq<Atom> {
    if atoms == [] then []
    else
      var x := atoms[|atoms| - 1];
      Backbone(atoms[..|atoms| - 1]) + (if BackboneName(x.name) then [x] else [])
  }

  /** The backbone holds exactly the atoms named N, CA or C. */
  lemma {:induction false} BackboneFilters(atoms: seq<Atom>)
    ensures forall x :: x in Backbone(atoms) <==> x in atoms && BackboneName(x.name)
  {
    if atoms != [] {
      var n := |atoms| - 1;
      BackboneFilters(atoms[..n]);
      assert atoms == atoms[..n] + [atoms[n]];
    }
  }

  /** The positions i below n whose atom is near the next one. */
  function StepsBelow(mc: seq<Atom>, near: (Point, Point) -> bool, n: nat): seq<nat>
    requires n == 0 || n < |mc|
  {
    if n == 0 then []
    else StepsBelow(mc, near, n - 1) + (if near(mc[n - 1].position, mc[n].position) then [n - 1] else [])
  }

  /** The positions of the backbone whose atom is near the next one, in
      order: where `makeMainChain` adds a bond. */
  function Steps(mc: seq<Atom>, near: (Point, Point) -> bool): seq<nat> {
    if |mc| == 0 then [] else StepsBelow(mc, near, |mc| - 1)
  }

  lemma {:induction false} StepsBelowExactly(mc: seq<Atom>, near: (Point, Point) -> bool, n: nat)
    requires n == 0 || n < |mc|
    ensures forall k: nat :: k in StepsBelow(mc, near, n) ==> k < n && near(mc[k].position, mc[k + 1].position)
    ensures forall k: nat :: k < n && near(mc[k].position, mc[k + 1].position) ==> k in StepsBelow(mc, near, n)
    ensures forall a, b :: 0 <= a < b < |StepsBelow(mc, near, n)| ==> StepsBelow(mc, near, n)[a] < StepsBelow(mc, near, n)[b]
  {
    if n > 0 {
      StepsBelowExactly(mc, near, n - 1);
      var before := StepsBelow(mc, near, n - 1);
      var added: seq<nat> := if near(mc[n - 1].position, mc[n].position) then [n - 1] else [];
      assert StepsBelow(mc, near, n) == before + added;
      forall k: nat | k in before + added
        ensures k < n && near(mc[k].position, mc[k + 1].position)
      {
        if k !in before {
          assert k in added;
        }
      }
      forall a, b | 0 <= a < b < |before + added|
        ensures (before + added)[a] < (before + added)[b]
      {
        if b >= |before| {
          assert before[a] in before;
        }
      }
    }
  }

  /** A backbone bond is made at position k exactly when atoms k and k+1
      are near, and the positions come in increasing order. */
  lemma StepsExactly(mc: seq<Atom>, near: (Point, Point) -> bool)
    ensures forall k: nat :: k in Steps(mc, near) ==> k + 1 < |mc| && near(mc[k].position, mc[k + 1].position)
    ensures forall k: nat :: k + 1 < |mc| && near(mc[k].position, mc[k + 1].position) ==> k in Steps(mc, near)
    ensures forall a, b :: 0 <= a < b < |Steps(mc, near)| ==> Steps(mc, near)[a] < Steps(mc, near)[b]
  {
    if |mc| > 0 {
      StepsBelowExactly(mc, near, |mc| - 1);
    }
  }

  /** The bonds of `made`, one per listed position, each joining that
      backbone atom to the next with a white cylinder. */
  ghost predicate BackboneBonds(mc: seq<Atom>, steps: seq<nat>, made: seq<Bond>)
    reads made
  {
    |made| == |steps| &&
    forall k :: 0 <= k < |steps| ==>
      steps[k] + 1 < |mc| && made[k].atomA == mc[steps[k]] && made[k].atomB == mc[steps[k] + 1] && made[k].look == Cylinder(White)
  }

  /** What the bonds of `made`, one per listed position, add to the bond
      list of atom `x`. */
  ghost function Joined(x: Atom, mc: seq<Atom>, steps: seq<nat>, made: seq<Bond>): seq<Bond>
    requires |made| == |steps|
  {
    if steps == [] then []
    else
      var n := |steps| - 1;
      Joined(x, mc, steps[..n], made[..n]) + Joined1(x, mc, steps[n], made[n])
  }

  /** What one bond at position i adds to the bond list of atom `x`. */
  ghost function Joined1(x: Atom, mc: seq<Atom>, i: nat, b: Bond): seq<Bond> {
    if i + 1 < |mc| then Ends(x, mc[i], mc[i + 1], b) else []
  }

  /** Atom x has gained, on top of the list `orig` held for it, the bonds
      of `made`. */
  ghost predicate Grown(x: Atom, orig: map<Atom, seq<Bond>>,
                        mc: seq<Atom>, done: seq<nat>, made: seq<Bond>)
    reads x
  {
    |made| == |done| && x in orig &&
    x.bonds == orig[x] + Joined(x, mc, done, made)
  }

  lemma JoinedSnoc(x: Atom, mc: seq<Atom>, steps: seq<nat>, made: seq<Bond>, i: nat, b: Bond)
    requires |made| == |steps| && i + 1 < |mc|
    ensures Joined(x, mc, steps + [i], made + [b]) == Joined(x, mc, steps, made) + Ends(x, mc[i], mc[i + 1], b)
  {
    assert (steps + [i])[..|steps|] == steps && (steps + [i])[|steps|] == i;
    assert (made + [b])[..|made|] == made;
  }

  /** The loop of the `Chain` constructor: the residues' atoms and bonds
      in order. */
  method Gather(acids: seq<Aminoacid>) returns (list: seq<Atom>, bs: seq<Bond>)
    ensures list == AtomsOf(acids) && bs == BondsOf(acids)
  {
    list := [];
    bs := [];
    var i := 0;
    while i < |acids|
      invariant i <= |acids|
      invariant list == AtomsOf(acids[..i]) && bs == BondsOf(acids[..i])
    {
      assert acids[..i + 1][..i] == acids[..i];
      list := list + acids[i].atoms;
      bs := bs + acids[i].bonds;
      i := i + 1;
    }
    assert acids[..i] == acids;
  }

  /** Residues put into a map by number, one `put` each: every number maps
      to one of the residues, carrying that number. */
  method IndexAcids(acids: seq<Aminoacid>) returns (index: map<int, Aminoacid>)
    ensures index == Put(map[], ResIDs(acids), acids)
    ensures forall r :: r in index ==> index[r].resID == r && index[r] in acids
  {
    index := map[];
    var i := 0;
    while i < |acids|
      invariant i <= |acids|
      invariant index == Put(map[], ResIDs(acids)[..i], acids[..i])
    {
      assert acids[..i + 1][..i] == acids[..i];
      assert ResIDs(acids)[..i + 1][..i] == ResIDs(acids)[..i];
      index := index[acids[i].resID := acids[i]];
      i := i + 1;
    }
    assert acids[..i] == acids;
    assert ResIDs(acids)[..i] == ResIDs(acids);
    forall r | r in index
      ensures index[r].resID == r && index[r] in acids
    {
      var i := PutFound(map[], ResIDs(acids), acids, r);
    }
  }

  /** Residue i is the last of `acids` numbered r. */
  ghost predicate LastNumbered(acids: seq<Aminoacid>, i: nat, r: int) {
    i < |acids| && acids[i].resID == r && forall j :: i < j < |acids| ==> acids[j].resID != r
  }

  class Chain {
    var serial: int
    var chainID: string
    var aminoacids: seq<Aminoacid>
    const atoms: seq<Atom>
    const bonds: seq<Bond>
    const acidMap: map<int, Aminoacid>
    var mainChainAtoms: seq<Atom>
    var mainChainBonds: seq<Bond>

    /** Every residue the index holds is well formed and filed under its
        own number. */
    ghost predicate Valid() {
      forall r :: r in acidMap ==> acidMap[r].Valid() && acidMap[r].resID == r
    }

    /** `Chain(acids)`: copies the residues, takes the chain identifier from
        the first, concatenates their atoms and bonds, indexes them by
        residue number and builds the backbone. */
    constructor(acids: seq<Aminoacid>, near: (Point, Point) -> bool)
      requires |acids| > 0 && forall a :: a in acids ==> a.Valid()
      modifies AtomsOf(acids)
      ensures Valid()
      ensures aminoacids == acids && chainID == acids[0].chainID && serial == 0
      ensures atoms == AtomsOf(acids) && bonds == old(BondsOf(acids))
      ensures acidMap == Put(map[], ResIDs(acids), acids)
      ensures mainChainAtoms == Backbone(atoms)
      ensures BackboneBonds(mainChainAtoms, Steps(mainChainAtoms, near), mainChainBonds)
      ensures forall a, x :: a in acids && x in a.atoms ==>
        x.bonds == old(x.bonds) + Joined(x, mainChainAtoms, Steps(mainChainAtoms, near), mainChainBonds)
      ensures forall a, x :: a in acids && x in a.atoms ==> Kept(x)
    {
      var list, bs := Gather(acids);
      var index := IndexAcids(acids);
      aminoacids := acids;
      chainID := acids[0].chainID;
      serial := 0;
      atoms := list;
      bonds := bs;
      acidMap := index;
      mainChainAtoms := [];
      mainChainBonds := [];
      new;
      MakeMainChain(near);
      AtomsOfContains(acids);
      forall a, x | a in acids && x in a.atoms
        ensures Kept(x)
      {
        assert x in atoms;
      }
    }

    /** `makeMainChain()`: collects the backbone atoms, then joins each to
        the next with a white bond wherever the two are near. It runs once,
        on the empty lists the constructor leaves. */
    method MakeMainChain(near: (Point, Point) -> bool)
      requires mainChainAtoms == [] && mainChainBonds == []
      modifies this, atoms
      ensures mainChainAtoms == Backbone(atoms)
      ensures BackboneBonds(mainChainAtoms, Steps(mainChainAtoms, near), mainChainBonds)
      ensures forall x :: x in atoms ==>
        x.bonds == old(x.bonds) + Joined(x, mainChainAtoms, Steps(mainChainAtoms, near), mainChainBonds)
      ensures forall x :: x in atoms ==> Kept(x)
      ensures aminoacids == old(aminoacids) && chainID == old(chainID) && serial == old(serial)
    {
      var i := 0;
      while i < |atoms|
        invariant i <= |atoms| && mainChainAtoms == Backbone(atoms[..i]) && mainChainBonds == []
        invariant aminoacids == old(aminoacids) && chainID == old(chainID) && serial == old(serial)
        modifies this
      {
        assert atoms[..i + 1][..i] == atoms[..i];
        if BackboneName(atoms[i].name) {
          mainChainAtoms := mainChainAtoms + [atoms[i]];
        }
        i := i + 1;
      }
      assert atoms[..i] == atoms;
      BackboneFilters(atoms);
      LinkBackbone(near);
    }

    /** The second loop of `makeMainChain`. */
    method LinkBackbone(near: (Point, Point) -> bool)
      requires mainChainBonds == [] && forall x :: x in mainChainAtoms ==> x in atoms
      modifies this, atoms
      ensures mainChainAtoms == old(mainChainAtoms)
      ensures BackboneBonds(mainChainAtoms, Steps(mainChainAtoms, near), mainChainBonds)
      ensures forall x :: x in atoms ==>
        x.bonds == old(x.bonds) + Joined(x, mainChainAtoms, Steps(mainChainAtoms, near), mainChainBonds)
      ensures forall x :: x in atoms ==> Kept(x)
      ensures aminoacids == old(aminoacids) && chainID == old(chainID) && serial == old(serial)
    {
      var mc := mainChainAtoms;
      ghost var orig := map x | x in atoms :: x.bonds;
      ghost var done: seq<nat> := [];
      var made: seq<Bond> := [];
      LinkedStart(mc, near, orig);
      var i := 0;
      while i + 1 < |mc|
        modifies atoms
        invariant Linked(mc, near, i, done, made, orig)
        invariant forall x :: x in atoms ==> Kept(x)
      {
        made, done := LinkStep(mc, i, near, made, done, orig);
        i := i + 1;
      }
      LinkedEnd(mc, near, i, done, made, orig);
      mainChainBonds := made;
    }

    /** The state of the second loop before position i: the bonds `made`
        were made at the positions `done`, and every atom has gained them on
        top of the list `orig` held for it. */
    ghost predicate Linked(mc: seq<Atom>, near: (Point, Point) -> bool, i: nat, done: seq<nat>, made: seq<Bond>,
                           orig: map<Atom, seq<Bond>>)
      reads atoms, made
    {
      (i == 0 || i < |mc|) && done == StepsBelow(mc, near, i) && BackboneBonds(mc, done, made) &&
      forall x :: x in atoms ==> Grown(x, orig, mc, done, made)
    }

    lemma LinkedStart(mc: seq<Atom>, near: (Point, Point) -> bool, orig: map<Atom, seq<Bond>>)
      requires forall x :: x in atoms ==> x in orig && orig[x] == x.bonds
      ensures Linked(mc, near, 0, [], [], orig)
    {
    }

    lemma LinkedEnd(mc: seq<Atom>, near: (Point, Point) -> bool, i: nat, done: seq<nat>, made: seq<Bond>,
                    orig: map<Atom, seq<Bond>>)
      requires Linked(mc, near, i, done, made, orig) && i + 1 >= |mc|
      ensures done == Steps(mc, near) && BackboneBonds(mc, done, made)
      ensures forall x :: x in atoms ==> x in orig
      ensures forall x :: x in atoms ==> x.bonds == orig[x] + Joined(x, mc, done, made)
    {
    }

    /** One round of the second loop: a bond between backbone atoms i and
        i+1 when they are near. */
    method LinkStep(mc: seq<Atom>, i: nat, near: (Point, Point) -> bool, made: seq<Bond>, ghost done: seq<nat>,
                    ghost orig: map<Atom, seq<Bond>>)
      returns (made': seq<Bond>, ghost done': seq<nat>)
      requires i + 1 < |mc| && forall x :: x in mc ==> x in atoms
      requires Linked(mc, near, i, done, made, orig)
      modifies atoms
      ensures Linked(mc, near, i + 1, done', made', orig)
      ensures forall x :: x in atoms ==> Kept(x)
    {
      made', done' := made, done;
      if near(mc[i].position, mc[i + 1].position) {
        ghost var lists := map x | x in atoms :: x.bonds;
        var bond := NewBackboneBond(mc, i);
        JoinedSnocAll(orig, lists, mc, done, made, i, bond);
        made', done' := made + [bond], done + [i];
      }
    }

    /** `new Bond(atom i, atom i+1, WHITE)` on the backbone `mc`. */
    method NewBackboneBond(mc: seq<Atom>, i: nat) returns (bond: Bond)
      requires i + 1 < |mc| && forall x :: x in mc ==> x in atoms
      modifies atoms
      ensures fresh(bond)
      ensures bond.atomA == mc[i] && bond.atomB == mc[i + 1] && bond.look == Cylinder(White)
      ensures forall x :: x in atoms ==> x.bonds == old(x.bonds) + Ends(x, mc[i], mc[i + 1], bond)
      ensures forall x :: x in atoms ==> Kept(x)
    {
      assert mc[i] in mc && mc[i + 1] in mc;
      bond := new Bond.Colored(mc[i], mc[i + 1], White);
    }

    /** `JoinedSnoc` at every atom of the chain, whose list was `lists[x]`
        before the bond was added. */
    lemma JoinedSnocAll(orig: map<Atom, seq<Bond>>, lists: map<Atom, seq<Bond>>, mc: seq<Atom>,
                        done: seq<nat>, made: seq<Bond>, i: nat, b: Bond)
      requires |made| == |done| && i + 1 < |mc|
      requires BackboneBonds(mc, done, made)
      requires b.atomA == mc[i] && b.atomB == mc[i + 1] && b.look == Cylinder(White)
      requires forall x :: x in atoms ==> x in orig && x in lists && lists[x] == orig[x] + Joined(x, mc, done, made)
      requires forall x :: x in atoms ==> x.bonds == lists[x] + Ends(x, mc[i], mc[i + 1], b)
      ensures BackboneBonds(mc, done + [i], made + [b])
      ensures forall x :: x in atoms ==> x.bonds == orig[x] + Joined(x, mc, done + [i], made + [b])
    {
      forall x | x in atoms
        ensures x.bonds == orig[x] + Joined(x, mc, done + [i], made + [b])
      {
        JoinedSnoc(x, mc, done, made, i, b);
        ConcatAssoc(orig[x], Joined(x, mc, done, made), Ends(x, mc[i], mc[i + 1], b));
      }
    }

    /** `getAcid(r)`: the residue the index holds for that number, or null. */
    function GetAcid(r: int): (a: Aminoacid?)
      requires Valid()
      ensures a == null <==> r !in acidMap
      ensures a != null ==> a.resID == r && a.Valid()
    {
      if r in acidMap then acidMap[r] else null
    }

    /** Over an index built from `acids`, `getAcid(r)` finds a residue
        exactly when one of them has number r, and then the last such. */
    lemma GetAcidFinds(acids: seq<Aminoacid>, r: int)
      requires Valid() && acidMap == Put(map[], ResIDs(acids), acids)
      ensures GetAcid(r) != null <==> exists i :: 0 <= i < |acids| && acids[i].resID == r
      ensures GetAcid(r) != null ==>
        exists i :: 0 <= i < |acids| && GetAcid(r) == acids[i] && LastNumbered(acids, i, r)
    {
      if r in acidMap {
        var i := PutFound(map[], ResIDs(acids), acids, r);
        assert LastNumbered(acids, i, r);
      } else {
        forall i | 0 <= i < |acids|
          ensures acids[i].resID != r
        {
          assert ResIDs(acids)[i] in ResIDs(acids);
        }
      }
    }

    /** `setAminoacids(list)`: replaces the residue list, and nothing else. */
    method SetAminoacids(acids: seq<Aminoacid>)
      modifies this
      ensures aminoacids == acids && chainID == old(chainID) && serial == old(serial)
      ensures mainChainAtoms == old(mainChainAtoms) && mainChainBonds == old(mainChainBonds)
    {
      aminoacids := acids;
    }

    /** `appendAminoacids(list)`: extends the residue list, and nothing else. */
    method AppendAminoacids(acids: seq<Aminoacid>)
      modifies this
      ensures aminoacids == old(aminoacids) + acids && chainID == old(chainID) && serial == old(serial)
      ensures mainChainAtoms == old(mainChainAtoms) && mainChainBonds == old(mainChainBonds)
    {
      aminoacids := aminoacids + acids;
    }

    method SetSerial(serial: int)
      modifies this
      ensures this.serial == serial && chainID == old(chainID) && aminoacids == old(aminoacids)
      ensures mainChainAtoms == old(mainChainAtoms) && mainChainBonds == old(mainChainBonds)
    {
      this.serial := serial;
    }

    method SetChainID(chainID: string)
      modifies this
      ensures this.chainID == chainID && serial == old(serial) && aminoacids == old(aminoacids)
      ensures mainChainAtoms == old(mainChainAtoms) && mainChainBonds == old(mainChainBonds)
    {
      this.chainID := chainID;
    }
  }

  /** The residues of a list of chains, chain after chain. */
  function ChainAcids(chains: seq<Chain>): seq<Aminoacid>
    reads chains
  {
    if chains == [] then [] else ChainAcids(chains[..|chains| - 1]) + chains[|chains| - 1].aminoacids
  }

  /** The atoms of a list of chains, chain after chain. */
  function ChainAtoms(chains: seq<Chain>): seq<Atom> {
    if chains == [] then [] else ChainAtoms(chains[..|chains| - 1]) + chains[|chains| - 1].atoms
  }

  /** The bonds of a list of chains, chain after chain. */
  function ChainBonds(chains: seq<Chain>): seq<Bond> {
    if chains == [] then [] else ChainBonds(chains[..|chains| - 1]) + chains[|chains| - 1].bonds
  }

  /** The backbone bonds of a list of chains, chain after chain. */
  function ChainBackbones(chains: seq<Chain>): seq<Bond>
    reads chains
  {
    if chains == [] then [] else ChainBackbones(chains[..|chains| - 1]) + chains[|chains| - 1].mainChainBonds
  }

  /** The chain identifiers, one per chain. */
  function ChainIDs(chains: seq<Chain>): (r: seq<string>)
    reads chains
    ensures |r| == |chains|
    ensures forall i :: 0 <= i < |chains| ==> r[i] == chains[i].chainID
  {
    seq(|chains|, i requires 0 <= i < |chains| reads chains => chains[i].chainID)
  }

  /** The serial numbers, one per atom. */
  function Serials(atoms: seq<Atom>): (r: seq<int>)
    reads atoms
    ensures |r| == |atoms|
    ensures forall i :: 0 <= i < |atoms| ==> r[i] == atoms[i].serial
  {
    seq(|atoms|, i requires 0 <= i < |atoms| reads atoms => atoms[i].serial)
  }

  /** The first loop of the `Model` constructor: the chains' residues, atoms,
      bonds and backbone bonds in order, and the chains by identifier. */
  method Flatten(chains: seq<Chain>)
    returns (acids: seq<Aminoacid>, atoms: seq<Atom>, bonds: seq<Bond>, backbone: seq<Bond>,
             index: map<string, Chain>)
    ensures acids == ChainAcids(chains) && atoms == ChainAtoms(chains)
    ensures bonds == ChainBonds(chains) && backbone == ChainBackbones(chains)
    ensures index == Put(map[], ChainIDs(chains), chains)
    ensures forall id :: id in index ==> index[id] in chains
  {
    acids, atoms, bonds, backbone, index := [], [], [], [], map[];
    var i := 0;
    while i < |chains|
      invariant i <= |chains|
      invariant acids == ChainAcids(chains[..i]) && atoms == ChainAtoms(chains[..i])
      invariant bonds == ChainBonds(chains[..i]) && backbone == ChainBackbones(chains[..i])
      invariant index == Put(map[], ChainIDs(chains)[..i], chains[..i])
    {
      assert chains[..i + 1][..i] == chains[..i];
      assert ChainIDs(chains)[..i + 1][..i] == ChainIDs(chains)[..i];
      index := index[chains[i].chainID := chains[i]];
      acids := acids + chains[i].aminoacids;
      atoms := atoms + chains[i].atoms;
      bonds := bonds + chains[i].bonds;
      backbone := backbone + chains[i].mainChainBonds;
      i := i + 1;
    }
    assert chains[..i] == chains;
    assert ChainIDs(chains)[..i] == ChainIDs(chains);
    forall id | id in index
      ensures index[id] in chains
    {
      var i := PutFound(map[], ChainIDs(chains), chains, id);
    }
  }

  /** Atoms put into `m` by serial number, one `put` each. */
  method IndexAtoms(m: map<int, Atom>, atoms: seq<Atom>) returns (index: map<int, Atom>)
    ensures index == Put(m, Serials(atoms), atoms)
  {
    index := m;
    var i := 0;
    while i < |atoms|
      invariant i <= |atoms|
      invariant index == Put(m, Serials(atoms)[..i], atoms[..i])
    {
      assert atoms[..i + 1][..i] == atoms[..i];
      assert Serials(atoms)[..i + 1][..i] == Serials(atoms)[..i];
      index := index[atoms[i].serial := atoms[i]];
      i := i + 1;
    }
    assert atoms[..i] == atoms;
    assert Serials(atoms)[..i] == Serials(atoms);
  }

  /** The three loops of the `Model` constructor: the chains flattened,
      then the residues indexed by number and the atoms by serial number. */
  method Build(chains: seq<Chain>)
    returns (acids: seq<Aminoacid>, atoms: seq<Atom>, bonds: seq<Bond>, backbone: seq<Bond>,
             byID: map<string, Chain>, byNumber: map<int, Aminoacid>, bySerial: map<int, Atom>)
    ensures acids == ChainAcids(chains) && atoms == ChainAtoms(chains)
    ensures bonds == ChainBonds(chains) && backbone == ChainBackbones(chains)
    ensures byID == Put(map[], ChainIDs(chains), chains)
    ensures forall id :: id in byID ==> byID[id] in chains
    ensures byNumber == Put(map[], ResIDs(acids), acids)
    ensures forall r :: r in byNumber ==> byNumber[r].resID == r && byNumber[r] in acids
    ensures bySerial == Put(map[], Serials(atoms), atoms)
  {
    acids, atoms, bonds, backbone, byID := Flatten(chains);
    byNumber := IndexAcids(acids);
    bySerial := IndexAtoms(map[], atoms);
  }

  class Model {
    const chains: seq<Chain>
    const acids: seq<Aminoacid>
    const atoms: seq<Atom>
    const bonds: seq<Bond>
    const mainChain: seq<Bond>
    const chainMap: map<string, Chain>
    const acidMap: map<int, Aminoacid>
    ghost const chainIDs: seq<string>
    ghost const serials: seq<int>
    var atomMap: map<int, Atom>
    var hetatoms: seq<Atom>
    var helices: seq<Helix>
    var sheets: seq<Sheet>
    var explicit: seq<Bond>
    var metaInfo: string

    /** Every indexed chain keeps its own residue index, and every indexed
        residue is one of the model's, under its own number. */
    ghost predicate Valid() {
      (forall id :: id in chainMap ==> chainMap[id].Valid()) &&
      (forall r :: r in acidMap ==> acidMap[r].resID == r && acidMap[r] in acids)
    }

    /** `Model(chains)`: concatenates the chains' residues, atoms, bonds and
        backbone bonds, and indexes chains by identifier, residues by number
        and atoms by serial number, the last of each key winning. */
    constructor(chains: seq<Chain>)
      requires forall c :: c in chains ==> c.Valid()
      ensures Valid() && this.chains == chains
      ensures acids == ChainAcids(chains) && atoms == ChainAtoms(chains)
      ensures bonds == ChainBonds(chains) && mainChain == ChainBackbones(chains)
      ensures chainIDs == ChainIDs(chains) && chainMap == Put(map[], chainIDs, chains)
      ensures acidMap == Put(map[], ResIDs(acids), acids)
      ensures serials == Serials(atoms) && atomMap == Put(map[], serials, atoms)
      ensures hetatoms == [] && helices == [] && sheets == [] && explicit == [] && metaInfo == ""
    {
      var acidList, atomList, bondList, backbone, byID, byNumber, bySerial := Build(chains);
      chainIDs := ChainIDs(chains);
      serials := Serials(atomList);
      this.chains := chains;
      acids := acidList;
      atoms := atomList;
      bonds := bondList;
      mainChain := backbone;
      chainMap := byID;
      acidMap := byNumber;
      atomMap := bySerial;
      hetatoms := [];
      helices := [];
      sheets := [];
      explicit := [];
      metaInfo := "";
    }

    /** The loop of `center()` as far as it decides anything: the furthest
        atom stays unset, and the source dereferences null, unless some atom
        lies away from the origin. The translation itself is not modelled. */
    method Center(away: Point -> bool) returns (ok: bool)
      ensures ok <==> exists i :: 0 <= i < |atoms| && away(atoms[i].position)
    {
      ok := false;
      var i := 0;
      while i < |atoms|
        invariant i <= |atoms|
        invariant ok <==> exists j :: 0 <= j < i && away(atoms[j].position)
      {
        if away(atoms[i].position) {
          ok := true;
        }
        i := i + 1;
      }
    }

    /** Over an index built from `chains`, a chain identifier is found
        exactly when one of the identifiers read at construction is it, and
        then it names the last chain carrying it. */
    lemma ChainFound(id: string)
      requires |chainIDs| == |chains| && chainMap == Put(map[], chainIDs, chains)
      ensures id in chainMap <==> exists i :: 0 <= i < |chains| && chainIDs[i] == id
      ensures id in chainMap ==> exists i :: 0 <= i < |chains| && chainMap[id] == chains[i] &&
                                            chainIDs[i] == id && (forall j :: i < j < |chains| ==> chainIDs[j] != id)
    {
      if id in chainMap {
        var i := PutFound(map[], chainIDs, chains, id);
      }
    }

    /** `chainMap.get(chainID).getAcid(num)`: None where no chain has that
        identifier (the source dereferences null there), otherwise the
        chain's residue of that number, or null. */
    function Lookup(chainID: string, num: int): (r: Option<Aminoacid?>)
      requires Valid()
      ensures r.None? <==> chainID !in chainMap
      ensures r.Some? ==> (r.value != null <==> num in chainMap[chainID].acidMap)
      ensures r.Some? && r.value != null ==> r.value.resID == num && r.value.Valid()
    {
      if chainID in chainMap then Some(chainMap[chainID].GetAcid(num)) else None
    }

    /** A range resolves when both chains exist and, where both residues
        exist, both have an alpha carbon. */
    ghost predicate Resolves(sc: string, sn: int, ec: string, en: int)
      requires Valid()
    {
      var s := Lookup(sc, sn);
      var e := Lookup(ec, en);
      s.Some? && e.Some? &&
      (s.value != null && e.value != null ==> AlphaCarbon(s.value).Some? && AlphaCarbon(e.value).Some?)
    }

    /** The ends and shape `setAcids` leaves for a range that resolves. */
    ghost predicate Placed(start: Aminoacid?, end: Aminoacid?, shape: Shape, sc: string, sn: int, ec: string, en: int)
      requires Valid()
    {
      Resolves(sc, sn, ec, en) &&
      var s := Lookup(sc, sn).value;
      var e := Lookup(ec, en).value;
      start == s && end == e &&
      shape == if s != null && e != null then Span(AlphaCarbon(s).value, AlphaCarbon(e).value) else Placeholder
    }

    ghost predicate HelixResolves(r: HelixRange)
      requires Valid()
    {
      Resolves(r.startChainID, r.initSeqNum, r.endChainID, r.endSeqNum)
    }

    ghost predicate HelixPlaced(h: Helix)
      requires Valid()
      reads h
    {
      var r := h.Range();
      Placed(h.start, h.end, h.shape, r.startChainID, r.initSeqNum, r.endChainID, r.endSeqNum)
    }

    ghost predicate SheetResolves(r: SheetRange)
      requires Valid()
    {
      Resolves(r.initChainID, r.initSeqNum, r.endChainID, r.endSeqNum)
    }

    ghost predicate SheetPlaced(s: Sheet)
      requires Valid()
      reads s
    {
      var r := s.Range();
      Placed(s.start, s.end, s.shape, r.initChainID, r.initSeqNum, r.endChainID, r.endSeqNum)
    }

    /** One pass of `renderHelices`: looks both ends up and sets them. */
    method PlaceHelix(h: Helix) returns (ok: bool)
      requires Valid()
      modifies h
      ensures h.Range() == old(h.Range())
      ensures ok <==> HelixResolves(h.Range())
      ensures ok ==> HelixPlaced(h)
    {
      var s := Lookup(h.startChainID, h.initSeqNum);
      var e := Lookup(h.endChainID, h.endSeqNum);
      if s.None? || e.None? {
        return false;
      }
      ok := h.SetAcids(s.value, e.value);
    }

    /** `setHelices(list)`: stores the list and resolves every helix in
        turn, stopping at the first whose range does not resolve; the ones
        before it are placed. */
    method SetHelices(hs: seq<Helix>) returns (ok: bool)
      requires Valid()
      modifies this, hs
      ensures helices == hs && sheets == old(sheets) && explicit == old(explicit)
      ensures atomMap == old(atomMap) && hetatoms == old(hetatoms) && metaInfo == old(metaInfo)
      ensures forall k :: 0 <= k < |hs| ==> hs[k].Range() == old(hs[k].Range())
      ensures ok <==> forall k :: 0 <= k < |hs| ==> HelixResolves(hs[k].Range())
      ensures ok ==> forall k :: 0 <= k < |hs| ==> HelixPlaced(hs[k])
      ensures !ok ==> exists f :: 0 <= f < |hs| && !HelixResolves(hs[f].Range()) &&
                                  (forall k :: 0 <= k < f ==> HelixPlaced(hs[k]))
    {
      helices := hs;
      var i := 0;
      while i < |hs|
        modifies hs
        invariant i <= |hs|
        invariant forall k :: 0 <= k < |hs| ==> hs[k].Range() == old(hs[k].Range())
        invariant forall k :: 0 <= k < i ==> HelixPlaced(hs[k])
      {
        ok := PlaceHelix(hs[i]);
        if !ok {
          return;
        }
        i := i + 1;
      }
      ok := true;
    }

    /** One pass of `renderSheets`: looks both ends up and sets them. */
    method PlaceSheet(s: Sheet) returns (ok: bool)
      requires Valid()
      modifies s
      ensures s.Range() == old(s.Range())
      ensures ok <==> SheetResolves(s.Range())
      ensures ok ==> SheetPlaced(s)
    {
      var a := Lookup(s.initChainID, s.initSeqNum);
      var e := Lookup(s.endChainID, s.endSeqNum);
      if a.None? || e.None? {
        return false;
      }
      ok := s.SetAcids(a.value, e.value);
    }

    /** `setSheets(list)`: as `setHelices`, for sheets. */
    method SetSheets(ss: seq<Sheet>) returns (ok: bool)
      requires Valid()
      modifies this, ss
      ensures sheets == ss && helices == old(helices) && explicit == old(explicit)
      ensures atomMap == old(atomMap) && hetatoms == old(hetatoms) && metaInfo == old(metaInfo)
      ensures forall k :: 0 <= k < |ss| ==> ss[k].Range() == old(ss[k].Range())
      ensures ok <==> forall k :: 0 <= k < |ss| ==> SheetResolves(ss[k].Range())
      ensures ok ==> forall k :: 0 <= k < |ss| ==> SheetPlaced(ss[k])
      ensures !ok ==> exists f :: 0 <= f < |ss| && !SheetResolves(ss[f].Range()) &&
                                  (forall k :: 0 <= k < f ==> SheetPlaced(ss[k]))
    {
      sheets := ss;
      var i := 0;
      while i < |ss|
        modifies ss
        invariant i <= |ss|
        invariant forall k :: 0 <= k < |ss| ==> ss[k].Range() == old(ss[k].Range())
        invariant forall k :: 0 <= k < i ==> SheetPlaced(ss[k])
      {
        ok := PlaceSheet(ss[i]);
        if !ok {
          return;
        }
        i := i + 1;
      }
      ok := true;
    }

    /** Where a walk up from residue number `lo` towards `hi` stops: at the
        first number the index lacks, or at `hi`. */
    function Stop(lo: int, hi: int): (s: int)
      ensures s == lo || lo < s <= hi
      ensures forall r :: lo <= r < s ==> r in acidMap
      ensures s < hi ==> s !in acidMap
      decreases hi - lo
    {
      if lo >= hi || lo !in acidMap then lo else Stop(lo + 1, hi)
    }

    /** Residue `a` is the one indexed under its number, within [lo, hi). */
    predicate Toggled(a: Aminoacid, lo: int, hi: int) {
      lo <= a.resID < hi && a.resID in acidMap && acidMap[a.resID] == a
    }

    /** `toggleAcidVisibility(start, end, b)`: sets the visibility of the
        indexed residues numbered start up to end; it fails at the first
        number the index lacks, having set the ones before. */
    method ToggleAcidVisibility(start: int, end: int, b: bool) returns (ok: bool)
      requires Valid()
      modifies acids
      ensures ok <==> forall r :: start <= r < end ==> r in acidMap
      ensures forall a :: a in acids ==>
        a.visible == (if Toggled(a, start, Stop(start, end)) then b else old(a.visible))
      ensures forall a :: a in acids ==> a.bonds == old(a.bonds)
    {
      var i := start;
      while i < end
        invariant start <= i && (i <= end || i == start)
        invariant forall r :: start <= r < i ==> r in acidMap
        invariant forall a :: a in acids ==>
          a.visible == (if Toggled(a, start, i) then b else old(a.visible)) && a.bonds == old(a.bonds)
        decreases end - i
      {
        if i !in acidMap {
          return false;
        }
        acidMap[i].SetVisible(b);
        i := i + 1;
      }
      ok := true;
    }

    /** `setHetAtoms(list)`: stores the list and indexes each atom by serial
        number, over the index the constructor built. */
    method SetHetAtoms(hs: seq<Atom>)
      modifies this
      ensures hetatoms == hs && atomMap == Put(old(atomMap), Serials(hs), hs)
      ensures helices == old(helices) && sheets == old(sheets) && explicit == old(explicit)
      ensures metaInfo == old(metaInfo)
    {
      hetatoms := hs;
      atomMap := IndexAtoms(atomMap, hs);
    }

    method SetMetaInfo(metaInfo: string)
      modifies this
      ensures this.metaInfo == metaInfo && atomMap == old(atomMap) && hetatoms == old(hetatoms)
      ensures helices == old(helices) && sheets == old(sheets) && explicit == old(explicit)
    {
      this.metaInfo := metaInfo;
    }

    /** The atom indexed under serial number s, or null. */
    function AtomAt(s: int): (a: Atom?)
      reads this
      ensures a != null <==> s in atomMap
      ensures a != null ==> a == atomMap[s]
    {
      if s in atomMap then atomMap[s] else null
    }

    /** A link's ends are the atoms indexed under its serial numbers. */
    ghost predicate Attached(l: Bond)
      reads this, l
    {
      l.atomA == AtomAt(l.serialA) && l.atomB == AtomAt(l.serialB)
    }

    /** Every link before the k-th was drawn with a cylinder. */
    predicate CylindersBefore(links: seq<Bond>, k: int) {
      forall j :: 0 <= j < k && j < |links| ==> links[j].look.Cylinder?
    }

    /** One pass of `renderLinks` as written: sets both ends from the
        index, then `makeCylinder(color)` redraws the bond between the end
        positions it recorded when it was made. A bond that recorded none,
        such as one built from two serial numbers, has null positions, and
        the redraw dereferences them. */
    method AttachAndRedraw(l: Bond) returns (ok: bool)
      modifies l
      ensures Attached(l)
      ensures ok <==> l.look.Cylinder?
    {
      l.SetAtomA(AtomAt(l.serialA));
      l.SetAtomB(AtomAt(l.serialB));
      ok := l.look.Cylinder?;
    }

    /** `setExplicitLinks(list)` as written: stores the list and renders the
        links in turn, stopping at the first link that recorded no end
        positions, such as any link built from two serial numbers. */
    method SetExplicitLinks(links: seq<Bond>) returns (ok: bool)
      modifies this, links
      ensures explicit == links && atomMap == old(atomMap) && hetatoms == old(hetatoms)
      ensures helices == old(helices) && sheets == old(sheets) && metaInfo == old(metaInfo)
      ensures ok <==> forall k :: 0 <= k < |links| ==> links[k].look.Cylinder?
      ensures forall k :: 0 <= k < |links| && CylindersBefore(links, k) ==> Attached(links[k])
    {
      explicit := links;
      var i := 0;
      while i < |links|
        modifies links
        invariant i <= |links| && CylindersBefore(links, i)
        invariant forall k :: 0 <= k < i ==> Attached(links[k])
      {
        ok := AttachAndRedraw(links[i]);
        if !ok {
          return;
        }
        i := i + 1;
      }
      ok := true;
    }

    /** A link read from two serial numbers makes `setExplicitLinks` fail. */
    method SerialLinkFails(serialA: int, serialB: int) returns (ok: bool)
      modifies this
      ensures !ok
    {
      var link := new Bond.Serials(serialA, serialB);
      ok := SetExplicitLinks([link]);
      assert [link][0] == link;
    }

    /** `setExplicitLinks(list)` as intended: every link gets the atoms
        indexed under its serial numbers, whether or not it had a cylinder. */
    method ResolveLinks(links: seq<Bond>)
      modifies this, links
      ensures explicit == links && atomMap == old(atomMap) && hetatoms == old(hetatoms)
      ensures helices == old(helices) && sheets == old(sheets) && metaInfo == old(metaInfo)
      ensures forall k :: 0 <= k < |links| ==> Attached(links[k])
    {
      explicit := links;
      var i := 0;
      while i < |links|
        modifies links
        invariant i <= |links|
        invariant forall k :: 0 <= k < i ==> Attached(links[k])
      {
        links[i].SetAtomA(AtomAt(links[i].serialA));
        links[i].SetAtomB(AtomAt(links[i].serialB));
        i := i + 1;
      }
    }
  }
}
