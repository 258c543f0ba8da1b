/** Field extraction for the PDB record types the parser reads: each
    `parseXXX` method of Parser.java as a function from the line to the
    record it yields, or to the exception it throws. Column ranges are
    half-open and zero-based, as in `String.substring`; they follow the
    wwPDB Atomic Coordinate Entry Format v3.3. */
module Records {
  import opened Results
  import opened JavaText

  /** An atom position. The three coordinate columns are kept as their
      whitespace-free text: the model never computes with coordinates. */
  datatype Point = Point(x: string, y: string, z: string)

  /** The fields of an ATOM or HETATM line that reach `new Atom(...)`. */
  datatype AtomRecord = AtomRecord(
    serial: int, name: string, residue: string, chainID: string,
    resID: int, position: Point, element: string)

  /** The fields of a HELIX line that reach the range constructor of Helix. */
  datatype HelixRange = HelixRange(initSeqNum: int, endSeqNum: int, startChainID: string, endChainID: string)

  /** The fields of a SHEET line that reach the range constructor of Sheet. */
  datatype SheetRange = SheetRange(id: string, initSeqNum: int, endSeqNum: int, initChainID: string, endChainID: string)

  // Column predicates used by the contracts below.

  predicate IntAt(s: string, lo: nat, hi: nat)
    requires lo <= hi
  {
    hi <= |s| && ParseInt(StripSpace(s[lo..hi])).Some?
  }

  function IntOf(s: string, lo: nat, hi: nat): int
    requires lo <= hi && IntAt(s, lo, hi)
  {
    ParseInt(StripSpace(s[lo..hi])).value
  }

  function TextAt(s: string, lo: nat, hi: nat): string
    requires lo <= hi <= |s|
  {
    StripSpace(s[lo..hi])
  }

  predicate DecimalAt(s: string, lo: nat, hi: nat, isDecimal: string -> bool)
    requires lo <= hi
  {
    hi <= |s| && isDecimal(StripSpace(s[lo..hi]))
  }

  /** `Double.parseDouble` of a whitespace-free coordinate field. Which
      strings Java accepts as a double is the parameter `isDecimal`; the
      value itself is kept as text. */
  function DecimalField(s: string, lo: nat, hi: nat, isDecimal: string -> bool): (r: Result<string, ParseError>)
    requires lo <= hi
    ensures r.Ok? <==> DecimalAt(s, lo, hi, isDecimal)
    ensures r.Ok? ==> r.value == StripSpace(s[lo..hi])
  {
    var t :- TextField(s, lo, hi);
    if isDecimal(t) then Ok(t) else Fail(NumberFormat)
  }

  /** The record type of a line: its first six characters with all
      whitespace removed. A line shorter than six characters throws. */
  function RecordType(line: string): (r: Result<string, ParseError>)
    ensures r.Ok? <==> |line| >= 6
    ensures r.Ok? ==> |r.value| <= 6 && NoSpace(r.value)
    ensures r.Ok? ==> r.value == StripSpace(line[..6])
  {
    TextField(line, 0, 6)
  }

  /** parseHEADER: the untrimmed columns 10-50, then a newline. */
  function ParseHeader(s: string): (r: Result<string, ParseError>)
    ensures r.Ok? <==> |s| >= 50
    ensures r.Ok? ==> |r.value| == 41 && r.value[..40] == s[10..50] && r.value[40] == '\n'
  {
    var header :- Substring(s, 10, 50);
    Ok(header + "\n")
  }

  /** parseTITLE: the untrimmed columns 10-80, then a newline. */
  function ParseTitle(s: string): (r: Result<string, ParseError>)
    ensures r.Ok? <==> |s| >= 80
    ensures r.Ok? ==> |r.value| == 71 && r.value[..70] == s[10..80] && r.value[70] == '\n'
  {
    var title :- Substring(s, 10, 80);
    Ok(title + "\n")
  }

  /** parseREMARK: the untrimmed columns 11-79, then a newline. */
  function ParseRemark(s: string): (r: Result<string, ParseError>)
    ensures r.Ok? <==> |s| >= 79
    ensures r.Ok? ==> |r.value| == 69 && r.value[..68] == s[11..79] && r.value[68] == '\n'
  {
    var remark :- Substring(s, 11, 79);
    Ok(remark + "\n")
  }

  /** parseLINK: reads both partner atoms but keeps nothing; it can only
      throw, when the line is shorter than 56 characters or a residue
      sequence number (columns 22-26, 52-56) is not an integer. */
  function ParseLink(s: string): (r: Result<(), ParseError>)
    ensures r.Ok? <==> |s| >= 56 && IntAt(s, 22, 26) && IntAt(s, 52, 56)
  {
    var atom1 :- TextField(s, 12, 16);
    var altLoc1 :- TextField(s, 16, 17);
    var resName1 :- TextField(s, 17, 20);
    var chainID1 :- TextField(s, 21, 22);
    var resSeq1 :- IntField(s, 22, 26);
    var atom2 :- TextField(s, 42, 46);
    var altLoc2 :- TextField(s, 46, 47);
    var resName2 :- TextField(s, 47, 50);
    var chainID2 :- TextField(s, 51, 52);
    var resSeq2 :- IntField(s, 52, 56);
    Ok(())
  }

  /** parseSEQRES: keeps nothing; it throws when the line is shorter than
      70 characters or the serial (columns 7-10) is not an integer. */
  function ParseSeqres(s: string): (r: Result<(), ParseError>)
    ensures r.Ok? <==> |s| >= 70 && IntAt(s, 7, 10)
  {
    var serial :- IntField(s, 7, 10);
    var id :- TextField(s, 11, 12);
    var numRes := serial; // columns 7-10 again, already known to parse
    var residues :- Substring(s, 19, 70);
    Ok(())
  }

  /** parseHELIX: a range from the initial residue (chain column 19,
      sequence number 21-25) to the terminal one (chain column 31, sequence
      number 33-37). The helix class is read from columns 21-25 again, and
      the length (71-76) must be an integer too. */
  function ParseHelix(s: string): (r: Result<HelixRange, ParseError>)
    ensures r.Ok? <==> |s| >= 76 && IntAt(s, 6, 11) && IntAt(s, 21, 25) && IntAt(s, 33, 37) && IntAt(s, 71, 76)
    ensures r.Ok? ==> r.value == HelixRange(IntOf(s, 21, 25), IntOf(s, 33, 37), TextAt(s, 19, 20), TextAt(s, 31, 32))
  {
    var serial :- IntField(s, 6, 11);
    var helixID :- Substring(s, 11, 14);
    var initResName :- TextField(s, 15, 18);
    var initChainID :- TextField(s, 19, 20);
    var initSeqNum :- IntField(s, 21, 25);
    var initICode :- Substring(s, 25, 26);
    var endResName :- TextField(s, 27, 30);
    var endChainID :- TextField(s, 31, 32);
    var endSeqNum :- IntField(s, 33, 37);
    var endICode :- Substring(s, 37, 38);
    var helixClass := initSeqNum; // columns 21-25 again, already known to parse
    var length :- IntField(s, 71, 76);
    Ok(HelixRange(initSeqNum, endSeqNum, initChainID, endChainID))
  }

  /** parseSHEET: a strand of sheet `id` (columns 11-14) from the initial
      residue (chain 21, sequence number 22-26) to the terminal one (chain
      32, sequence number 33-37); strand number, strand count and sense must
      be integers too. */
  function ParseSheet(s: string): (r: Result<SheetRange, ParseError>)
    ensures r.Ok? <==> |s| >= 40 && IntAt(s, 7, 10) && IntAt(s, 14, 16) && IntAt(s, 22, 26) && IntAt(s, 33, 37) && IntAt(s, 38, 40)
    ensures r.Ok? ==> r.value == SheetRange(TextAt(s, 11, 14), IntOf(s, 22, 26), IntOf(s, 33, 37), TextAt(s, 21, 22), TextAt(s, 32, 33))
  {
    var strand :- IntField(s, 7, 10);
    var sheetID :- TextField(s, 11, 14);
    var numStrands :- IntField(s, 14, 16);
    var initResName :- TextField(s, 17, 20);
    var initChainID :- TextField(s, 21, 22);
    var initSeqNum :- IntField(s, 22, 26);
    var endResName :- TextField(s, 28, 31);
    var endChainID :- TextField(s, 32, 33);
    var endSeqNum :- IntField(s, 33, 37);
    var sense :- IntField(s, 38, 40);
    Ok(SheetRange(sheetID, initSeqNum, endSeqNum, initChainID, endChainID))
  }

  /** parseATOM: serial 6-11, atom name 12-16, residue name 17-20, chain
      21-22, residue sequence number 22-26, coordinates 30-38, 38-46, 46-54
      and element 76-78, every field with its whitespace removed. */
  function ParseAtom(s: string, isDecimal: string -> bool): (r: Result<AtomRecord, ParseError>)
    ensures r.Ok? <==>
      && |s| >= 78 && IntAt(s, 6, 11) && IntAt(s, 22, 26)
      && DecimalAt(s, 30, 38, isDecimal) && DecimalAt(s, 38, 46, isDecimal) && DecimalAt(s, 46, 54, isDecimal)
    ensures r.Ok? ==> r.value == AtomRecord(
      IntOf(s, 6, 11), TextAt(s, 12, 16), TextAt(s, 17, 20), TextAt(s, 21, 22), IntOf(s, 22, 26),
      Point(TextAt(s, 30, 38), TextAt(s, 38, 46), TextAt(s, 46, 54)), TextAt(s, 76, 78))
    ensures r.Fail? && |s| >= 78 ==> r.error == NumberFormat
  {
    var serial :- IntField(s, 6, 11);
    var name :- TextField(s, 12, 16);
    var residue :- TextField(s, 17, 20);
    var chainID :- TextField(s, 21, 22);
    var resID :- IntField(s, 22, 26);
    var x :- DecimalField(s, 30, 38, isDecimal);
    var y :- DecimalField(s, 38, 46, isDecimal);
    var z :- DecimalField(s, 46, 54, isDecimal);
    var element :- TextField(s, 76, 78);
    Ok(AtomRecord(serial, name, residue, chainID, resID, Point(x, y, z), element))
  }

  /** parseHETATM: the ATOM columns, except that the chain (21-22) and the
      element (76-78) keep their whitespace, and occupancy (54-60) and
      temperature factor (60-66) must be decimals; the charge slice 77-80
      makes any line shorter than 80 characters throw. */
  function ParseHetatm(s: string, isDecimal: string -> bool): (r: Result<AtomRecord, ParseError>)
    ensures r.Ok? <==>
      && |s| >= 80 && IntAt(s, 6, 11) && IntAt(s, 22, 26)
      && DecimalAt(s, 30, 38, isDecimal) && DecimalAt(s, 38, 46, isDecimal) && DecimalAt(s, 46, 54, isDecimal)
      && DecimalAt(s, 54, 60, isDecimal) && DecimalAt(s, 60, 66, isDecimal)
    ensures r.Ok? ==> r.value == AtomRecord(
      IntOf(s, 6, 11), TextAt(s, 12, 16), TextAt(s, 17, 20), s[21..22], IntOf(s, 22, 26),
      Point(TextAt(s, 30, 38), TextAt(s, 38, 46), TextAt(s, 46, 54)), s[76..78])
  {
    var serial :- IntField(s, 6, 11);
    var name :- TextField(s, 12, 16);
    var altLoc :- Substring(s, 16, 17);
    var resName :- TextField(s, 17, 20);
    var chainID :- Substring(s, 21, 22);
    var resSeq :- IntField(s, 22, 26);
    var iCode :- Substring(s, 26, 27);
    var x :- DecimalField(s, 30, 38, isDecimal);
    var y :- DecimalField(s, 38, 46, isDecimal);
    var z :- DecimalField(s, 46, 54, isDecimal);
    var occupancy :- DecimalField(s, 54, 60, isDecimal);
    var tempFactor :- DecimalField(s, 60, 66, isDecimal);
    var element :- Substring(s, 76, 78);
    var charge :- Substring(s, 77, 80);
    Ok(AtomRecord(serial, name, resName, chainID, resSeq, Point(x, y, z), element))
  }

  /** A five-column field that is all whitespace. */
  predicate Blank(s: string, lo: nat)
    requires lo + 5 <= |s|
  {
    |TextAt(s, lo, lo + 5)| == 0
  }

  /** A bonded-atom field of CONECT is accepted when it is blank or an integer. */
  predicate BondedFieldOk(s: string, lo: nat) {
    lo + 5 <= |s| && (Blank(s, lo) || IntAt(s, lo, lo + 5))
  }

  /** The bonded serial a CONECT field names: none when it is blank. */
  function BondedSerial(s: string, lo: nat): (r: seq<int>)
    requires BondedFieldOk(s, lo)
    ensures |r| <= 1
  {
    if Blank(s, lo) then [] else [IntOf(s, lo, lo + 5)]
  }

  /** The four bonded-atom fields of a CONECT line are accepted. */
  predicate ConectFieldsOk(s: string) {
    BondedFieldOk(s, 11) && BondedFieldOk(s, 16) && BondedFieldOk(s, 21) && BondedFieldOk(s, 26)
  }

  /** The serials named by the non-blank bonded-atom fields, in column order. */
  function BondedSerials(s: string): (r: seq<int>)
    requires ConectFieldsOk(s)
    ensures |r| <= 4
  {
    BondedSerial(s, 11) + BondedSerial(s, 16) + BondedSerial(s, 21) + BondedSerial(s, 26)
  }

  /** The serial-only bonds from `serial` to each of `bonded`, in order. */
  function PairsFrom(serial: int, bonded: seq<int>): (r: seq<(int, int)>)
    ensures |r| == |bonded|
    ensures forall k :: 0 <= k < |r| ==> r[k] == (serial, bonded[k])
  {
    seq(|bonded|, k requires 0 <= k < |bonded| => (serial, bonded[k]))
  }

  lemma PairsFromConcat(serial: int, xs: seq<int>, ys: seq<int>)
    ensures PairsFrom(serial, xs + ys) == PairsFrom(serial, xs) + PairsFrom(serial, ys)
  {
  }

  /** One bonded-atom field: nothing when blank, else a (serial, bonded) pair. */
  function BondedPair(s: string, lo: nat, serial: int): (r: Result<seq<(int, int)>, ParseError>)
    ensures r.Ok? <==> BondedFieldOk(s, lo)
    ensures r.Ok? ==> r.value == PairsFrom(serial, BondedSerial(s, lo))
  {
    var field :- Substring(s, lo, lo + 5);
    if |StripSpace(field)| == 0 then Ok([])
    else
      var bonded :- IntField(s, lo, lo + 5);
      Ok([(serial, bonded)])
  }

  /** parseCONECT: one serial-only bond per non-blank field among columns
      11-16, 16-21, 21-26 and 26-31, in column order, each starting at the
      record's own serial (columns 6-11). */
  function ParseConect(s: string): (r: Result<seq<(int, int)>, ParseError>)
    ensures r.Ok? <==> IntAt(s, 6, 11) && ConectFieldsOk(s)
    ensures r.Ok? ==> |s| >= 31 && r.value == PairsFrom(IntOf(s, 6, 11), BondedSerials(s))
  {
    var serial :- IntField(s, 6, 11);
    var b1 :- BondedPair(s, 11, serial);
    var b2 :- BondedPair(s, 16, serial);
    var b3 :- BondedPair(s, 21, serial);
    var b4 :- BondedPair(s, 26, serial);
    PairsFromConcat(serial, BondedSerial(s, 11), BondedSerial(s, 16));
    PairsFromConcat(serial, BondedSerial(s, 11) + BondedSerial(s, 16), BondedSerial(s, 21));
    PairsFromConcat(serial, BondedSerial(s, 11) + BondedSerial(s, 16) + BondedSerial(s, 21), BondedSerial(s, 26));
    Ok(b1 + b2 + b3 + b4)
  }
}
