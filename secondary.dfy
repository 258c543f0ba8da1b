/** Secondary structure: helices and sheets, each a residue range read from
    a HELIX or SHEET record and later resolved to the residues at its ends.
    The rendered cylinder or box is kept only as the two points it spans. */
module Secondary {
  import opened Results
  import opened Records
  import opened Primary

  /** What a helix or sheet shows: nothing yet, the zero-length shape at the
      origin drawn when an end residue is missing, or a shape spanning two
      alpha-carbon positions. */
  datatype Shape = Unshaped | Placeholder | Span(from: Point, to: Point)

  /** The position of a residue's alpha carbon, when it has one. */
  function AlphaCarbon(a: Aminoacid): (r: Option<Point>)
    ensures r.Some? <==> a.GetAtom("CA") != null
    ensures r.Some? ==> r.value == a.GetAtom("CA").position
  {
    var ca := a.GetAtom("CA");
    if ca == null then None else Some(ca.position)
  }

  class Helix {
    var start: Aminoacid?
    var end: Aminoacid?
    var startP: Option<Point>
    var endP: Option<Point>
    var shape: Shape
    var serial: int
    var initSeqNum: int
    var endSeqNum: int
    var startChainID: string
    var endChainID: string

    /** `Helix(initSeqNum, endSeqNum, startChainID, endChainID)`: the range
        as read, no residues and no shape yet. */
    constructor(initSeqNum: int, endSeqNum: int, startChainID: string, endChainID: string)
      ensures Range() == HelixRange(initSeqNum, endSeqNum, startChainID, endChainID)
      ensures serial == 0 && start == null && end == null
      ensures startP == None && endP == None && shape == Unshaped
    {
      this.startChainID := startChainID;
      this.endChainID := endChainID;
      this.initSeqNum := initSeqNum;
      this.endSeqNum := endSeqNum;
      serial := 0;
      start := null;
      end := null;
      startP := None;
      endP := None;
      shape := Unshaped;
    }

    /** The range fields, as the record they were read from. */
    function Range(): HelixRange
      reads this
    {
      HelixRange(initSeqNum, endSeqNum, startChainID, endChainID)
    }

    /** `setAcids(start, end)`: stores both ends; with both present the
        shape spans their alpha carbons, otherwise it is the placeholder.
        `ok` is false where the source dereferences a missing alpha carbon:
        the ends and any position already read are kept, the shape is not. */
    method SetAcids(s: Aminoacid?, e: Aminoacid?) returns (ok: bool)
      modifies this
      ensures start == s && end == e && Range() == old(Range()) && serial == old(serial)
      ensures ok <==> s == null || e == null || (AlphaCarbon(s).Some? && AlphaCarbon(e).Some?)
      ensures s == null || e == null ==>
        shape == Placeholder && startP == old(startP) && endP == old(endP)
      ensures s != null && e != null && ok ==>
        startP == AlphaCarbon(s) && endP == AlphaCarbon(e) && shape == Span(startP.value, endP.value)
      ensures !ok ==> shape == old(shape) && endP == old(endP)
      ensures !ok ==> startP == if AlphaCarbon(s).Some? then AlphaCarbon(s) else old(startP)
    {
      start := s;
      end := e;
      if s != null && e != null {
        var a := AlphaCarbon(s);
        if a.None? {
          return false;
        }
        startP := a;
        var b := AlphaCarbon(e);
        if b.None? {
          return false;
        }
        endP := b;
        shape := Span(a.value, b.value);
      } else {
        shape := Placeholder;
      }
      ok := true;
    }

    method SetSerial(serial: int)
      modifies this
      ensures this.serial == serial && Range() == old(Range())
      ensures start == old(start) && end == old(end) && shape == old(shape)
    {
      this.serial := serial;
    }

    method SetInitSeqNum(initSeqNum: int)
      modifies this
      ensures Range() == old(Range()).(initSeqNum := initSeqNum) && serial == old(serial)
      ensures start == old(start) && end == old(end) && shape == old(shape)
    {
      this.initSeqNum := initSeqNum;
    }

    method SetEndSeqNum(endSeqNum: int)
      modifies this
      ensures Range() == old(Range()).(endSeqNum := endSeqNum) && serial == old(serial)
      ensures start == old(start) && end == old(end) && shape == old(shape)
    {
      this.endSeqNum := endSeqNum;
    }

    method SetStartChainID(startChainID: string)
      modifies this
      ensures Range() == old(Range()).(startChainID := startChainID) && serial == old(serial)
      ensures start == old(start) && end == old(end) && shape == old(shape)
    {
      this.startChainID := startChainID;
    }

    method SetEndChainID(endChainID: string)
      modifies this
      ensures Range() == old(Range()).(endChainID := endChainID) && serial == old(serial)
      ensures start == old(start) && end == old(end) && shape == old(shape)
    {
      this.endChainID := endChainID;
    }
  }

  class Sheet {
    const id: string
    const initSeqNum: int
    const endSeqNum: int
    var initChainID: string
    var endChainID: string
    var start: Aminoacid?
    var end: Aminoacid?
    var startP: Option<Point>
    var endP: Option<Point>
    var shape: Shape

    /** `Sheet(id, initSeqNum, endSeqNum, initChainID, endChainID)`: the
        range as read, no residues and no shape yet. */
    constructor(id: string, initSeqNum: int, endSeqNum: int, initChainID: string, endChainID: string)
      ensures Range() == SheetRange(id, initSeqNum, endSeqNum, initChainID, endChainID)
      ensures start == null && end == null
      ensures startP == None && endP == None && shape == Unshaped
    {
      this.initChainID := initChainID;
      this.endChainID := endChainID;
      this.id := id;
      this.initSeqNum := initSeqNum;
      this.endSeqNum := endSeqNum;
      start := null;
      end := null;
      startP := None;
      endP := None;
      shape := Unshaped;
    }

    /** The range fields, as the record they were read from. */
    function Range(): SheetRange
      reads this
    {
      SheetRange(id, initSeqNum, endSeqNum, initChainID, endChainID)
    }

    /** `setAcids(start, end)`: as for a helix. */
    method SetAcids(s: Aminoacid?, e: Aminoacid?) returns (ok: bool)
      modifies this
      ensures start == s && end == e && Range() == old(Range())
      ensures ok <==> s == null || e == null || (AlphaCarbon(s).Some? && AlphaCarbon(e).Some?)
      ensures s == null || e == null ==>
        shape == Placeholder && startP == old(startP) && endP == old(endP)
      ensures s != null && e != null && ok ==>
        startP == AlphaCarbon(s) && endP == AlphaCarbon(e) && shape == Span(startP.value, endP.value)
      ensures !ok ==> shape == old(shape) && endP == old(endP)
      ensures !ok ==> startP == if AlphaCarbon(s).Some? then AlphaCarbon(s) else old(startP)
    {
      start := s;
      end := e;
      if s != null && e != null {
        var a := AlphaCarbon(s);
        if a.None? {
          return false;
        }
        startP := a;
        var b := AlphaCarbon(e);
        if b.None? {
          return false;
        }
        endP := b;
        shape := Span(a.value, b.value);
      } else {
        shape := Placeholder;
      }
      ok := true;
    }

    method SetInitChainID(initChainID: string)
      modifies this
      ensures Range() == old(Range()).(initChainID := initChainID)
      ensures start == old(start) && end == old(end) && shape == old(shape)
    {
      this.initChainID := initChainID;
    }

    method SetEndChainID(endChainID: string)
      modifies this
      ensures Range() == old(Range()).(endChainID := endChainID)
      ensures start == old(start) && end == old(end) && shape == old(shape)
    {
      this.endChainID := endChainID;
    }
  }
}
