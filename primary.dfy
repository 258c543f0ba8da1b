/** The primary structure: atoms, the bonds between them and the residues
    (`Aminoacid`) that group them. Scene-graph nodes, sizes and materials
    are not modelled; colours are kept as names. */
module Primary {
  import opened Results
  import opened Records
  import opened Indexing
  import opened Topology

  datatype Color = White | Gray | Red | Blue | Yellow | Brown | Green | Purple

  /** The CPK colour an atom of each element gets; an element the table
      does not list is white. */
  function CpkColor(element: string): (r: Color)
    ensures r == Gray <==> element == "C"
    ensures r == Red <==> element == "O"
    ensures r == Blue <==> element == "N"
    ensures r == Yellow <==> element == "S"
    ensures r == Brown <==> element == "FE"
    ensures r == Green <==> element == "F" || element == "CL"
    ensures r != Purple
  {
    if element == "H" then White
    else if element == "C" then Gray
    else if element == "O" then Red
    else if element == "N" then Blue
    else if element == "S" then Yellow
    else if element == "FE" then Brown
    else if element == "F" then Green
    else if element == "CL" then Green
    else White
  }

  class Atom {
    const position: Point
    const name: string
    const element: string
    const resID: int
    const color: Color
    var serial: int
    var residue: string
    var chainID: string
    var bonds: seq<Bond>

    /** Stores every field as given, colours the atom after its element
        and starts with no bonds. */
    constructor(position: Point, name: string, element: string, serial: int,
                residue: string, resID: int, chainID: string)
      ensures this.position == position && this.name == name && this.element == element
      ensures this.serial == serial && this.residue == residue
      ensures this.resID == resID && this.chainID == chainID
      ensures color == CpkColor(element) && bonds == []
    {
      this.position := position;
      this.name := name;
      this.element := element;
      this.serial := serial;
      this.residue := residue;
      this.resID := resID;
      this.chainID := chainID;
      color := CpkColor(element);
      bonds := [];
    }

    /** The fields the parser filled in, as a record. */
    function Record(): AtomRecord
      reads this
    {
      AtomRecord(serial, name, residue, chainID, resID, position, element)
    }

    method AddBond(b: Bond)
      modifies this
      ensures bonds == old(bonds) + [b]
      ensures Kept(this)
    {
      bonds := bonds + [b];
    }

    method SetSerial(serial: int)
      modifies this
      ensures this.serial == serial
      ensures residue == old(residue) && chainID == old(chainID) && bonds == old(bonds)
    {
      this.serial := serial;
    }

    /** Writes the residue name, although its parameter is called chainID. */
    method SetResidue(chainID: string)
      modifies this
      ensures residue == chainID
      ensures serial == old(serial) && this.chainID == old(this.chainID) && bonds == old(bonds)
    {
      residue := chainID;
    }

    method SetChainID(chainID: string)
      modifies this
      ensures this.chainID == chainID
      ensures serial == old(serial) && residue == old(residue) && bonds == old(bonds)
    {
      this.chainID := chainID;
    }
  }

  /** The fields an atom's identity is read from are as they were. */
  twostate predicate Kept(x: Atom)
    reads x
  {
    x.serial == old(x.serial) && x.residue == old(x.residue) && x.chainID == old(x.chainID)
  }

  /** What a bond shows: no shape at all (the serial-only bond), an empty
      cylinder (a bond with a missing end) or a cylinder of a colour. Of the
      constructors, only those that build a cylinder record the ends'
      positions (`posA`, `posB`); `setAtomA` and `setAtomB` never record
      them, and the setters `setPosA` and `setPosB`, which do, are not part
      of this model. */
  datatype Look = NoShape | Invisible | Cylinder(color: Color)

  class Bond {
    var atomA: Atom?
    var atomB: Atom?
    const serialA: int
    const serialB: int
    const look: Look

    /** `Bond(a, b)`: both ends stored; only when both are present does the
        bond get a cylinder and add itself to each end's bond list. */
    constructor Between(a: Atom?, b: Atom?)
      modifies a, b
      ensures atomA == a && atomB == b && serialA == 0 && serialB == 0
      ensures look == if a != null && b != null then Cylinder(White) else Invisible
      ensures a != null ==> a.bonds == old(a.bonds) + Ends(a, a, b, this) && Kept(a)
      ensures b != null ==> b.bonds == old(b.bonds) + Ends(b, a, b, this) && Kept(b)
    {
      atomA := a;
      atomB := b;
      serialA := 0;
      serialB := 0;
      look := if a != null && b != null then Cylinder(White) else Invisible;
      new;
      if a != null && b != null {
        a.AddBond(this);
        b.AddBond(this);
      }
    }

    /** `Bond(a, b, color)`: as `Between`, with a cylinder of the given colour. */
    constructor Colored(a: Atom?, b: Atom?, color: Color)
      modifies a, b
      ensures atomA == a && atomB == b && serialA == 0 && serialB == 0
      ensures look == if a != null && b != null then Cylinder(color) else Invisible
      ensures a != null ==> a.bonds == old(a.bonds) + Ends(a, a, b, this) && Kept(a)
      ensures b != null ==> b.bonds == old(b.bonds) + Ends(b, a, b, this) && Kept(b)
    {
      atomA := a;
      atomB := b;
      serialA := 0;
      serialB := 0;
      look := if a != null && b != null then Cylinder(color) else Invisible;
      new;
      if a != null && b != null {
        a.AddBond(this);
        b.AddBond(this);
      }
    }

    /** `Bond(serialA, serialB)`: a CONECT bond that only names its ends. */
    constructor Serials(serialA: int, serialB: int)
      ensures atomA == null && atomB == null
      ensures this.serialA == serialA && this.serialB == serialB && look == NoShape
    {
      atomA := null;
      atomB := null;
      this.serialA := serialA;
      this.serialB := serialB;
      look := NoShape;
    }

    method SetAtomA(a: Atom?)
      modifies this
      ensures atomA == a && atomB == old(atomB)
    {
      atomA := a;
    }

    method SetAtomB(b: Atom?)
      modifies this
      ensures atomB == b && atomA == old(atomA)
    {
      atomB := b;
    }
  }

  /** What a bond between `a` and `b` adds to the bond list of atom `x`:
      nothing unless both ends are present, and the bond once per end that
      is `x` (twice for an atom bonded to itself). */
  function Ends(x: Atom, a: Atom?, b: Atom?, bond: Bond): seq<Bond> {
    if a != null && b != null
    then (if a == x then [bond] else []) + (if b == x then [bond] else [])
    else []
  }

  lemma ConcatAssoc<T>(a: seq<T>, b: seq<T>, c: seq<T>)
    ensures (a + b) + c == a + (b + c)
  {
  }

  /** The names of a list of atoms, in order. */
  function Names(atoms: seq<Atom>): (r: seq<string>)
    ensures |r| == |atoms|
    ensures forall i :: 0 <= i < |atoms| ==> r[i] == atoms[i].name
  {
    seq(|atoms|, i requires 0 <= i < |atoms| => atoms[i].name)
  }

  class Aminoacid {
    const name: string
    const atoms: seq<Atom>
    const linkage: map<string, Atom>
    const chainID: string
    const resID: int
    var bonds: seq<Bond>
    var visible: bool

    /** The atoms are indexed by name, later atoms overwriting earlier ones. */
    ghost predicate Valid() {
      |atoms| > 0 && linkage == Put(map[], Names(atoms), atoms)
    }

    /** Copies the atoms in order, indexes them by name, takes chain and
        residue number from the first atom and builds the residue's bonds. */
    constructor(name: string, atoms: seq<Atom>)
      requires |atoms| > 0
      modifies atoms
      ensures Valid() && this.name == name && this.atoms == atoms && visible
      ensures chainID == old(atoms[0].chainID) && resID == atoms[0].resID
      ensures LinksMade(Links(name, "OXT" in linkage), bonds)
      ensures forall k :: 0 <= k < |bonds| ==> fresh(bonds[k])
      ensures forall x :: x in atoms ==> x.bonds == old(x.bonds) + Incident(x, Links(name, "OXT" in linkage), bonds)
      ensures forall x :: x in atoms ==> Kept(x)
    {
      var list: seq<Atom> := [];
      var index: map<string, Atom> := map[];
      var i := 0;
      while i < |atoms|
        invariant i <= |atoms| && list == atoms[..i]
        invariant index == Put(map[], Names(atoms)[..i], atoms[..i])
      {
        assert Names(atoms)[..i + 1][..i] == Names(atoms)[..i];
        assert atoms[..i + 1][..i] == atoms[..i];
        list := list + [atoms[i]];
        index := index[atoms[i].name := atoms[i]];
        i := i + 1;
      }
      assert Names(atoms)[..i] == Names(atoms);
      assert atoms[..i] == atoms;
      this.name := name;
      this.atoms := list;
      linkage := index;
      chainID := atoms[0].chainID;
      resID := atoms[0].resID;
      bonds := [];
      visible := true;
      new;
      MakeLinks();
    }

    /** Atom i is the residue's last atom named n. */
    ghost predicate LastNamed(i: nat, n: string) {
      i < |atoms| && atoms[i].name == n && forall j :: i < j < |atoms| ==> atoms[j].name != n
    }

    /** `getAtom(name)`: the atom the name index holds, or null. */
    function GetAtom(n: string): (a: Atom?)
      ensures a != null <==> n in linkage
      ensures a != null ==> a == linkage[n]
    {
      if n in linkage then linkage[n] else null
    }

    /** `getAtom(name)` finds an atom exactly when the residue has one of
        that name, and then it is the last such atom. */
    lemma GetAtomFinds(n: string)
      requires Valid()
      ensures GetAtom(n) != null <==> exists i :: 0 <= i < |atoms| && atoms[i].name == n
      ensures GetAtom(n) != null ==> exists i :: 0 <= i < |atoms| && GetAtom(n) == atoms[i] && LastNamed(i, n)
    {
      if n in linkage {
        var i := PutFound(map[], Names(atoms), atoms, n);
        assert LastNamed(i, n);
      } else {
        forall i | 0 <= i < |atoms|
          ensures atoms[i].name != n
        {
          assert Names(atoms)[i] in Names(atoms);
        }
      }
    }

    /** `makeLinks()`: one bond per pair of the table for this residue's
        type, in order, each joining the atoms the names look up (null where
        a name is missing). */
    method MakeLinks()
      requires Valid()
      modifies this, atoms
      ensures |bonds| >= |old(bonds)| && bonds[..|old(bonds)|] == old(bonds)
      ensures LinksMade(Links(name, "OXT" in linkage), bonds[|old(bonds)|..])
      ensures forall k :: |old(bonds)| <= k < |bonds| ==> fresh(bonds[k])
      ensures forall x :: x in atoms ==>
        x.bonds == old(x.bonds) + Incident(x, Links(name, "OXT" in linkage), bonds[|old(bonds)|..])
      ensures forall x :: x in atoms ==> Kept(x)
      ensures visible == old(visible)
    {
      AddLinks(Links(name, "OXT" in linkage));
    }

    /** Appends one bond per pair, in order, joining the atoms the two names
        look up. */
    method AddLinks(pairs: seq<NamePair>)
      requires Valid()
      modifies this, atoms
      ensures |bonds| >= |old(bonds)| && bonds[..|old(bonds)|] == old(bonds)
      ensures LinksMade(pairs, bonds[|old(bonds)|..])
      ensures forall k :: |old(bonds)| <= k < |bonds| ==> fresh(bonds[k])
      ensures forall x :: x in atoms ==> x.bonds == old(x.bonds) + Incident(x, pairs, bonds[|old(bonds)|..])
      ensures forall x :: x in atoms ==> Kept(x)
      ensures visible == old(visible)
    {
      ghost var start := |bonds|;
      ghost var orig := map x | x in atoms :: x.bonds;
      var k := 0;
      while k < |pairs|
        invariant k <= |pairs| && |bonds| == start + k && bonds[..start] == old(bonds)
        invariant LinksMade(pairs[..k], bonds[start..])
        invariant forall j :: start <= j < |bonds| ==> fresh(bonds[j])
        invariant forall x :: x in atoms ==> x in orig && x.bonds == orig[x] + Incident(x, pairs[..k], bonds[start..])
        invariant forall x :: x in atoms ==> Kept(x)
        invariant visible == old(visible)
      {
        var bond := AddLink(pairs[k], pairs[..k], start, orig);
        assert pairs[..k + 1] == pairs[..k] + [pairs[k]];
        k := k + 1;
      }
      assert pairs[..k] == pairs;
    }

    /** Appends one bond joining the atoms the pair's two names look up,
        given the bonds from `start` on were built one per pair of `done`
        and the atoms' lists started out as `orig`. */
    method AddLink(p: NamePair, ghost done: seq<NamePair>, ghost start: nat,
                   ghost orig: map<Atom, seq<Bond>>) returns (bond: Bond)
      requires Valid() && start + |done| == |bonds|
      requires LinksMade(done, bonds[start..])
      requires forall x :: x in atoms ==> x in orig && x.bonds == orig[x] + Incident(x, done, bonds[start..])
      modifies this, atoms
      ensures fresh(bond) && bonds == old(bonds) + [bond]
      ensures LinksMade(done + [p], bonds[start..])
      ensures forall x :: x in atoms ==> x.bonds == orig[x] + Incident(x, done + [p], bonds[start..])
      ensures forall x :: x in atoms ==> Kept(x)
      ensures visible == old(visible)
    {
      ghost var made := bonds[start..];
      ghost var lists := map x | x in atoms :: x.bonds;
      bond := NewBond(p);
      assert bonds[start..] == made + [bond];
      LinksMadeSnoc(done, made, p, bond);
      IncidentSnocAll(orig, lists, done, made, p, bond);
    }

    /** `new Bond(getAtom(p.0), getAtom(p.1))`, added to the residue's bonds. */
    method NewBond(p: NamePair) returns (bond: Bond)
      requires Valid()
      modifies this, atoms
      ensures fresh(bond) && bonds == old(bonds) + [bond]
      ensures bond.atomA == GetAtom(p.0) && bond.atomB == GetAtom(p.1)
      ensures forall x :: x in atoms ==> x.bonds == old(x.bonds) + Ends(x, GetAtom(p.0), GetAtom(p.1), bond)
      ensures forall x :: x in atoms ==> Kept(x)
      ensures visible == old(visible)
    {
      var a := GetAtom(p.0);
      var b := GetAtom(p.1);
      GetAtomFinds(p.0);
      GetAtomFinds(p.1);
      bond := new Bond.Between(a, b);
      bonds := bonds + [bond];
    }

    /** `IncidentSnoc` at every atom of the residue, whose list was
        `lists[x]` before the bond was added. */
    lemma IncidentSnocAll(orig: map<Atom, seq<Bond>>, lists: map<Atom, seq<Bond>>,
                          done: seq<NamePair>, made: seq<Bond>, p: NamePair, b: Bond)
      requires Valid() && |made| == |done|
      requires forall x :: x in atoms ==> x in orig && x in lists && lists[x] == orig[x] + Incident(x, done, made)
      requires forall x :: x in atoms ==> x.bonds == lists[x] + Ends(x, GetAtom(p.0), GetAtom(p.1), b)
      ensures forall x :: x in atoms ==> x.bonds == orig[x] + Incident(x, done + [p], made + [b])
    {
      forall x | x in atoms
        ensures x.bonds == orig[x] + Incident(x, done + [p], made + [b])
      {
        IncidentSnoc(x, done, made, p, b);
        var i, e := Incident(x, done, made), Ends(x, GetAtom(p.0), GetAtom(p.1), b);
        ConcatAssoc(orig[x], i, e);
      }
    }

    /** A bond for `p` joins the atoms the pair's names look up. */
    lemma LinksMadeSnoc(pairs: seq<NamePair>, made: seq<Bond>, p: NamePair, b: Bond)
      requires Valid() && LinksMade(pairs, made)
      requires b.atomA == GetAtom(p.0) && b.atomB == GetAtom(p.1)
      ensures LinksMade(pairs + [p], made + [b])
    {
    }

    /** The atoms a pair's bond is registered at are those of the earlier
        pairs and then its own ends. */
    lemma IncidentSnoc(x: Atom, pairs: seq<NamePair>, made: seq<Bond>, p: NamePair, b: Bond)
      requires Valid() && |made| == |pairs|
      ensures Incident(x, pairs + [p], made + [b])
           == Incident(x, pairs, made) + Ends(x, GetAtom(p.0), GetAtom(p.1), b)
    {
      assert (pairs + [p])[..|pairs|] == pairs;
      assert (made + [b])[..|made|] == made;
    }

    /** `setVisible(b)`: shows or hides the residue. */
    method SetVisible(b: bool)
      modifies this
      ensures visible == b && bonds == old(bonds)
    {
      visible := b;
    }

    /** The bonds of `made`, built one per pair of `pairs`, that atom `x`
        lists: those whose two names both look up an atom, one of them `x`. */
    ghost function Incident(x: Atom, pairs: seq<NamePair>, made: seq<Bond>): seq<Bond>
      requires Valid() && |made| == |pairs|
    {
      if pairs == [] then []
      else
        var n := |pairs| - 1;
        Incident(x, pairs[..n], made[..n]) + Ends(x, GetAtom(pairs[n].0), GetAtom(pairs[n].1), made[n])
    }

    /** The pairs of `pairs`, in order, each made a bond joining the atoms
        its names look up. */
    ghost predicate LinksMade(pairs: seq<NamePair>, made: seq<Bond>)
      requires Valid()
      reads made
    {
      |made| == |pairs| &&
      forall k :: 0 <= k < |pairs| ==>
        made[k].atomA == GetAtom(pairs[k].0) && made[k].atomB == GetAtom(pairs[k].1)
    }
  }
}
