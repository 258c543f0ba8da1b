/** What `Parser.readFile` collects from the lines of a PDB file, as a pure
    fold: one `Step` per line, dispatching on the record type. The class
    `Parsing.Parser` runs the same loop over its own fields and is proved to
    end in the state `ReadAll` computes. */
module Reading {
  import opened Results
  import opened JavaText
  import opened Records

  /** The parser's fields that `readFile` updates. */
  datatype Collected = Collected(
    meta: string, inModel: bool, multiModel: bool, modelCount: nat, lineCount: nat,
    atoms: seq<AtomRecord>, hetatms: seq<AtomRecord>, links: seq<(int, int)>,
    helices: seq<HelixRange>, sheets: seq<SheetRange>)

  /** The state `Parser(String)` sets up before reading: `inModel` is true,
      every list is empty and `multiModel` keeps its default, false. */
  const Start: Collected := Collected("", true, false, 0, 0, [], [], [], [], [])

  /** The record types the `readFile` switch tells apart; `Other` covers
      TER, every type the switch has no case for, and a line too short to
      have a type. */
  datatype RecordKind =
    | Header | Title | Remark | Link | ModelStart | Seqres | HelixLine | SheetLine
    | Hetatm | AtomLine | Conect | Endmdl | Other

  /** The case label of each record type the switch names. */
  function Label(k: RecordKind): string {
    match k
    case Header => "HEADER"
    case Title => "TITLE"
    case Remark => "REMARK"
    case Link => "LINK"
    case ModelStart => "MODEL"
    case Seqres => "SEQRES"
    case HelixLine => "HELIX"
    case SheetLine => "SHEET"
    case Hetatm => "HETATM"
    case AtomLine => "ATOM"
    case Conect => "CONECT"
    case Endmdl => "ENDMDL"
    case Other => ""
  }

  /** The switch's cases, in source order. */
  const Cases: seq<RecordKind> :=
    [Header, Title, Remark, Link, ModelStart, Seqres, HelixLine, SheetLine, Hetatm, AtomLine, Conect, Endmdl]

  /** The first of `cases` whose label is `t`, or `Other`. */
  function Lookup(t: string, cases: seq<RecordKind>): (k: RecordKind)
    decreases |cases|
  {
    if cases == [] then Other
    else if t == Label(cases[0]) then cases[0]
    else Lookup(t, cases[1..])
  }

  /** `Lookup` finds a case exactly when one of `cases` carries the label,
      and what it finds carries it. */
  lemma {:induction false} LookupFinds(t: string, cases: seq<RecordKind>)
    requires Other !in cases
    ensures Lookup(t, cases) != Other <==> exists j :: 0 <= j < |cases| && Label(cases[j]) == t
    ensures Lookup(t, cases) != Other ==> Lookup(t, cases) in cases && Label(Lookup(t, cases)) == t
    decreases |cases|
  {
    if cases != [] && t != Label(cases[0]) {
      LookupFinds(t, cases[1..]);
      if exists j :: 0 <= j < |cases| && Label(cases[j]) == t {
        var j :| 0 <= j < |cases| && Label(cases[j]) == t;
        assert j > 0 && Label(cases[1..][j - 1]) == t;
      }
    }
  }

  /** The case of the switch a line selects: its record type, compared
      with each case label in turn; a line too short to have a record type
      selects none. */
  function Kind(line: string): (k: RecordKind)
    ensures |line| < 6 ==> k == Other
  {
    match RecordType(line)
    case Fail(_) => Other
    case Ok(t) => Lookup(t, Cases)
  }

  /** A line of six characters or more selects a case exactly when its
      first six characters, whitespace removed, are that case's label. */
  lemma KindLabel(line: string)
    requires |line| >= 6
    ensures Kind(line) != Other <==> exists k :: k != Other && Label(k) == StripSpace(line[..6])
    ensures Kind(line) != Other ==> Label(Kind(line)) == StripSpace(line[..6])
  {
    var t := StripSpace(line[..6]);
    LookupFinds(t, Cases);
    if k :| k != Other && Label(k) == t {
      CasesCover(k);
    }
  }

  /** Every record type but `Other` has a case. */
  lemma CasesCover(k: RecordKind)
    requires k != Other
    ensures k in Cases
  {
  }

  /** What the case a line selects makes of it: `Unparsed` for TER and the
      types the switch has no case for, `Malformed` when the record's parser
      throws, `Checked` for LINK and SEQRES, whose fields are read and
      dropped, and otherwise the value the parser yields. */
  datatype Parsed =
    | Unparsed
    | Malformed(error: ParseError)
    | Checked
    | Slice(text: string)
    | AtomData(atom: AtomRecord)
    | Bonds(pairs: seq<(int, int)>)
    | HelixData(helix: HelixRange)
    | SheetData(sheet: SheetRange)

  /** A parse outcome as a `Parsed` value. */
  function Outcome<T>(r: Result<T, ParseError>, wrap: T -> Parsed): Parsed {
    match r
    case Ok(v) => wrap(v)
    case Fail(e) => Malformed(e)
  }

  /** The parser each case of the switch runs on the line. MODEL and ENDMDL
      only move the model flags and read no field. */
  function Parse(kind: RecordKind, text: string, isDecimal: string -> bool): Parsed {
    match kind
    case Header => Outcome(ParseHeader(text), t => Slice(t))
    case Title => Outcome(ParseTitle(text), t => Slice(t))
    case Remark => Outcome(ParseRemark(text), t => Slice(t))
    case Link => Outcome(ParseLink(text), _ => Checked)
    case Seqres => Outcome(ParseSeqres(text), _ => Checked)
    case HelixLine => Outcome(ParseHelix(text), h => HelixData(h))
    case SheetLine => Outcome(ParseSheet(text), sh => SheetData(sh))
    case Hetatm => Outcome(ParseHetatm(text, isDecimal), a => AtomData(a))
    case AtomLine => Outcome(ParseAtom(text, isDecimal), a => AtomData(a))
    case Conect => Outcome(ParseConect(text), ps => Bonds(ps))
    case _ => Unparsed
  }

  /** A line with the case of the switch it selects and what that case's
      parser makes of it. */
  datatype Line = Line(kind: RecordKind, text: string, parsed: Parsed)

  function Typed(line: string, isDecimal: string -> bool): (l: Line)
    ensures l.text == line
  {
    var k := Kind(line);
    Line(k, line, Parse(k, line, isDecimal))
  }

  /** The shape of what each case of the switch makes of a line: the
      value its parser yields, or the exception it throws. */
  predicate WellTyped(l: Line) {
    match l.kind
    case Header | Title | Remark => l.parsed.Slice? || l.parsed.Malformed?
    case Link | Seqres => l.parsed.Checked? || l.parsed.Malformed?
    case HelixLine => l.parsed.HelixData? || l.parsed.Malformed?
    case SheetLine => l.parsed.SheetData? || l.parsed.Malformed?
    case Hetatm | AtomLine => l.parsed.AtomData? || l.parsed.Malformed?
    case Conect => l.parsed.Bonds? || l.parsed.Malformed?
    case ModelStart | Endmdl | Other => l.parsed.Unparsed?
  }

  lemma TypedWellTyped(line: string, isDecimal: string -> bool)
    ensures WellTyped(Typed(line, isDecimal))
  {
  }

  /** Every line with its case, in order. */
  function TypedAll(ls: seq<string>, isDecimal: string -> bool): (r: seq<Line>)
    ensures |r| == |ls|
    ensures forall i :: 0 <= i < |ls| ==> r[i] == Typed(ls[i], isDecimal)
  {
    seq(|ls|, i requires 0 <= i < |ls| => Typed(ls[i], isDecimal))
  }

  // What each line contributes to each collected field, line by line.

  function MetaPiece(l: Line): string {
    if l.parsed.Slice? then l.parsed.text else ""
  }

  function AtomPiece(l: Line): seq<AtomRecord> {
    if l.kind == AtomLine && l.parsed.AtomData? then [l.parsed.atom] else []
  }

  function HetatmPiece(l: Line): seq<AtomRecord> {
    if l.kind == Hetatm && l.parsed.AtomData? then [l.parsed.atom] else []
  }

  function ConectPiece(l: Line): seq<(int, int)> {
    if l.parsed.Bonds? then l.parsed.pairs else []
  }

  function HelixPiece(l: Line): seq<HelixRange> {
    if l.parsed.HelixData? then [l.parsed.helix] else []
  }

  function SheetPiece(l: Line): seq<SheetRange> {
    if l.parsed.SheetData? then [l.parsed.sheet] else []
  }

  /** Whether a line is read without an exception when `modelCount` is
      `mc`: it is long enough to have a record type, and the parser its type
      selects accepts it. An ATOM line is not even sliced once a model has
      ended. */
  predicate LineOk(l: Line, mc: nat) {
    |l.text| >= 6 && (l.parsed.Malformed? ==> l.kind == AtomLine && mc > 0)
  }

  /** Reading only appends: every collected list and `meta` of `d` extend
      those of `c`, the model counter never falls, and a file once seen to
      hold several models stays so. */
  predicate Grows(c: Collected, d: Collected) {
    c.meta <= d.meta && c.atoms <= d.atoms && c.hetatms <= d.hetatms && c.links <= d.links &&
    c.helices <= d.helices && c.sheets <= d.sheets && c.modelCount <= d.modelCount &&
    (c.multiModel ==> d.multiModel)
  }

  /** The state after one line that is read without an exception: the line
      counted, each field extended by what the line contributes to it, and
      the model counter and flags moved by MODEL and ENDMDL. */
  function Effect(c: Collected, l: Line): Collected {
    c.(lineCount := c.lineCount + 1,
       meta := c.meta + MetaPiece(l),
       atoms := c.atoms + (if c.modelCount == 0 then AtomPiece(l) else []),
       hetatms := c.hetatms + HetatmPiece(l),
       links := c.links + ConectPiece(l),
       helices := c.helices + HelixPiece(l),
       sheets := c.sheets + SheetPiece(l),
       modelCount := c.modelCount + (if l.kind == Endmdl then 1 else 0),
       inModel := if l.kind == ModelStart then true else if l.kind == Endmdl then false else c.inModel,
       multiModel := c.multiModel || l.kind == ModelStart)
  }

  /** The effect of a line on every field but the line count, applied
      after counting it. */
  function Extended(c: Collected, l: Line): (r: Collected)
    ensures r.lineCount == c.lineCount
    ensures c.lineCount > 0 ==> r == Effect(c.(lineCount := c.lineCount - 1), l)
  {
    Effect(c, l).(lineCount := c.lineCount)
  }

  /** LINK, SEQRES, TER and unknown types, and ATOM once a model has ended,
      leave every field but the line count as it was. */
  lemma ExtendedKeeps(c: Collected, l: Line)
    requires WellTyped(l)
    requires l.kind.Link? || l.kind.Seqres? || l.kind.Other? || (l.kind.AtomLine? && c.modelCount > 0)
    ensures Extended(c, l) == c
  {
    assert c.meta + "" == c.meta;
    assert c.atoms + [] == c.atoms;
    assert c.hetatms + [] == c.hetatms;
    assert c.links + [] == c.links;
    assert c.helices + [] == c.helices;
    assert c.sheets + [] == c.sheets;
  }

  /** One iteration of the `readFile` loop; `None` when it throws. */
  function Step(c: Collected, l: Line): (r: Option<Collected>)
    ensures r.Some? ==> Grows(c, r.value) && r.value.lineCount == c.lineCount + 1
  {
    if LineOk(l, c.modelCount) then Some(Effect(c, l)) else None
  }

  /** TER, MODEL, ENDMDL and every type the switch has no case for read no
      field; LINK and SEQRES lines are read and dropped. */
  lemma ParseKeepsNothing(kind: RecordKind, text: string, isDecimal: string -> bool)
    ensures kind.Other? || kind.ModelStart? || kind.Endmdl? ==> Parse(kind, text, isDecimal) == Unparsed
    ensures kind.Link? || kind.Seqres? ==> Parse(kind, text, isDecimal).Checked? || Parse(kind, text, isDecimal).Malformed?
  {
  }

  /** A line that yields nothing to keep, and an ATOM line once a model has
      ended, only count as read; a line shorter than six characters throws. */
  lemma StepIgnores(c: Collected, l: Line)
    ensures |l.text| < 6 ==> Step(c, l).None?
    ensures Step(c, l).Some? && (l.parsed.Unparsed? || l.parsed.Checked? || (l.kind == AtomLine && c.modelCount > 0 && !l.parsed.Slice? && !l.parsed.Bonds? && !l.parsed.HelixData? && !l.parsed.SheetData?)) ==>
      Step(c, l).value == c.(lineCount := c.lineCount + 1, modelCount := ModelsAfter(c.modelCount, l),
                             inModel := if l.kind == ModelStart then true else if l.kind == Endmdl then false else c.inModel,
                             multiModel := c.multiModel || l.kind == ModelStart)
  {
    if Step(c, l).Some? && (l.parsed.Unparsed? || l.parsed.Checked? || (l.kind == AtomLine && c.modelCount > 0 && !l.parsed.Slice? && !l.parsed.Bonds? && !l.parsed.HelixData? && !l.parsed.SheetData?)) {
      assert c.meta + "" == c.meta;
      assert c.atoms + [] == c.atoms;
      assert c.hetatms + [] == c.hetatms;
      assert c.links + [] == c.links;
      assert c.helices + [] == c.helices;
      assert c.sheets + [] == c.sheets;
    }
  }

  /** The whole `readFile` loop: the lines in order, the first exception
      aborting the read. */
  function ReadAll(c: Collected, ls: seq<Line>): (r: Option<Collected>)
    ensures r.Some? ==> r.value.lineCount == c.lineCount + |ls|
    decreases |ls|
  {
    if ls == [] then Some(c)
    else
      match Step(c, ls[0])
      case None => None
      case Some(next) => ReadAll(next, ls[1..])
  }

  /** A successful read only appends to what was collected before it. */
  lemma {:induction false} ReadAllGrows(c: Collected, ls: seq<Line>)
    requires ReadAll(c, ls).Some?
    ensures Grows(c, ReadAll(c, ls).value)
    decreases |ls|
  {
    if ls != [] {
      ReadAllGrows(Step(c, ls[0]).value, ls[1..]);
    }
  }

  /** Reading one more line continues from where the shorter read ended. */
  lemma {:induction false} ReadAllSnoc(c: Collected, ls: seq<Line>, l: Line)
    ensures ReadAll(c, ls + [l]) == match ReadAll(c, ls) { case None => None case Some(d) => Step(d, l) }
    decreases |ls|
  {
    if ls == [] {
      assert ls + [l] == [l];
    } else {
      assert (ls + [l])[0] == ls[0] && (ls + [l])[1..] == ls[1..] + [l];
      match Step(c, ls[0]) {
        case None =>
        case Some(next) => ReadAllSnoc(next, ls[1..], l);
      }
    }
  }

  /** The read of the first i + 1 lines is the read of the first i, then
      one step. */
  lemma ReadAllNext(c: Collected, ls: seq<Line>, i: nat, d: Collected)
    requires i < |ls| && ReadAll(c, ls[..i]) == Some(d)
    ensures ReadAll(c, ls[..i + 1]) == Step(d, ls[i])
  {
    assert ls[..i + 1] == ls[..i] + [ls[i]];
    ReadAllSnoc(c, ls[..i], ls[i]);
  }

  /** A line that throws after a successful prefix ends the whole read. */
  lemma ReadAllFails(c: Collected, ls: seq<Line>, i: nat, d: Collected)
    requires i < |ls| && ReadAll(c, ls[..i]) == Some(d) && Step(d, ls[i]).None?
    ensures ReadAll(c, ls).None?
  {
    ReadAllNext(c, ls, i, d);
    ReadAllStops(c, ls[..i + 1], ls[i + 1..]);
    assert ls[..i + 1] + ls[i + 1..] == ls;
  }

  /** Once a line throws, no later line is read. */
  lemma {:induction false} ReadAllStops(c: Collected, ls: seq<Line>, rest: seq<Line>)
    requires ReadAll(c, ls).None?
    ensures ReadAll(c, ls + rest).None?
    decreases |ls|
  {
    assert ls != [];
    assert (ls + rest)[0] == ls[0] && (ls + rest)[1..] == ls[1..] + rest;
    match Step(c, ls[0]) {
      case None =>
      case Some(next) => ReadAllStops(next, ls[1..], rest);
    }
  }

  // Reference definitions over the whole input.

  /** The model counter after line `l`. */
  function ModelsAfter(mc: nat, l: Line): nat {
    if l.kind == Endmdl then mc + 1 else mc
  }

  /** Every line is read without an exception, given the number of models
      ended before it. */
  predicate AllLinesOk(mc: nat, ls: seq<Line>)
    decreases |ls|
  {
    ls == [] || (LineOk(ls[0], mc) && AllLinesOk(ModelsAfter(mc, ls[0]), ls[1..]))
  }

  /** The number of ENDMDL lines. */
  function EndmdlCount(ls: seq<Line>): nat {
    if ls == [] then 0 else (if ls[0].kind == Endmdl then 1 else 0) + EndmdlCount(ls[1..])
  }

  /** The lines before the first ENDMDL line. */
  function FirstModel(ls: seq<Line>): (r: seq<Line>)
    ensures |r| <= |ls| && r == ls[..|r|]
    ensures forall i :: 0 <= i < |r| ==> r[i].kind != Endmdl
    ensures |r| < |ls| ==> ls[|r|].kind == Endmdl
  {
    if ls == [] || ls[0].kind == Endmdl then [] else [ls[0]] + FirstModel(ls[1..])
  }

  function MetaText(ls: seq<Line>): string {
    if ls == [] then "" else MetaPiece(ls[0]) + MetaText(ls[1..])
  }

  function AtomsOf(ls: seq<Line>): seq<AtomRecord> {
    if ls == [] then [] else AtomPiece(ls[0]) + AtomsOf(ls[1..])
  }

  function HetatmsOf(ls: seq<Line>): seq<AtomRecord> {
    if ls == [] then [] else HetatmPiece(ls[0]) + HetatmsOf(ls[1..])
  }

  function ConectPairs(ls: seq<Line>): seq<(int, int)> {
    if ls == [] then [] else ConectPiece(ls[0]) + ConectPairs(ls[1..])
  }

  function HelicesOf(ls: seq<Line>): seq<HelixRange> {
    if ls == [] then [] else HelixPiece(ls[0]) + HelicesOf(ls[1..])
  }

  function SheetsOf(ls: seq<Line>): seq<SheetRange> {
    if ls == [] then [] else SheetPiece(ls[0]) + SheetsOf(ls[1..])
  }

  predicate HasModel(ls: seq<Line>) {
    exists i :: 0 <= i < |ls| && ls[i].kind == ModelStart
  }

  /** The model-section flag after the lines: set by the last MODEL, cleared
      by the last ENDMDL, kept when there is neither. */
  function InModelAfter(b: bool, ls: seq<Line>): bool
    decreases |ls|
  {
    if ls == [] then b
    else
      var k := ls[|ls| - 1].kind;
      if k == ModelStart then true else if k == Endmdl then false else InModelAfter(b, ls[..|ls| - 1])
  }

  /** Reading succeeds exactly when every line is read without an
      exception, given the number of models ended before it. */
  lemma {:induction false} ReadAllOk(c: Collected, ls: seq<Line>)
    ensures ReadAll(c, ls).Some? <==> AllLinesOk(c.modelCount, ls)
    decreases |ls|
  {
    if ls != [] && LineOk(ls[0], c.modelCount) {
      ReadAllOk(Effect(c, ls[0]), ls[1..]);
    }
  }

  /** A successful read counts every line and every ENDMDL line. */
  lemma {:induction false} ReadAllCounts(c: Collected, ls: seq<Line>)
    requires ReadAll(c, ls).Some?
    ensures ReadAll(c, ls).value.lineCount == c.lineCount + |ls|
    ensures ReadAll(c, ls).value.modelCount == c.modelCount + EndmdlCount(ls)
    decreases |ls|
  {
    if ls != [] {
      ReadAllCounts(Effect(c, ls[0]), ls[1..]);
    }
  }

  /** A successful read appends the HEADER, TITLE and REMARK slices to
      `meta` in line order. */
  lemma {:induction false} ReadAllMeta(c: Collected, ls: seq<Line>)
    requires ReadAll(c, ls).Some?
    ensures ReadAll(c, ls).value.meta == c.meta + MetaText(ls)
    decreases |ls|
  {
    if ls != [] {
      var d := Effect(c, ls[0]);
      ReadAllMeta(d, ls[1..]);
      assert d.meta + MetaText(ls[1..]) == c.meta + (MetaPiece(ls[0]) + MetaText(ls[1..]));
    }
  }

  /** A successful read keeps the ATOM records up to the first ENDMDL, and
      only when no model had ended before. */
  lemma {:induction false} ReadAllAtoms(c: Collected, ls: seq<Line>)
    requires ReadAll(c, ls).Some?
    ensures ReadAll(c, ls).value.atoms ==
      c.atoms + (if c.modelCount == 0 then AtomsOf(FirstModel(ls)) else [])
    decreases |ls|
  {
    if ls != [] {
      var d := Effect(c, ls[0]);
      assert ReadAll(c, ls) == ReadAll(d, ls[1..]);
      ReadAllAtoms(d, ls[1..]);
      assert ls == [ls[0]] + ls[1..];
      AtomsStep(c, ls[0], ls[1..]);
    }
  }

  /** The atoms one line keeps, joined to those the first model's remaining
      lines keep. */
  lemma AtomsStep(c: Collected, l: Line, rest: seq<Line>)
    ensures var d := Effect(c, l);
      d.atoms + (if d.modelCount == 0 then AtomsOf(FirstModel(rest)) else []) ==
      c.atoms + (if c.modelCount == 0 then AtomsOf(FirstModel([l] + rest)) else [])
  {
    if c.modelCount == 0 && l.kind != Endmdl {
      FirstModelCons(l, rest);
    }
  }

  /** A line before the first ENDMDL starts the first model. */
  lemma FirstModelCons(l: Line, rest: seq<Line>)
    requires l.kind != Endmdl
    ensures AtomsOf(FirstModel([l] + rest)) == AtomPiece(l) + AtomsOf(FirstModel(rest))
  {
    var tail := FirstModel(rest);
    assert ([l] + rest)[0] == l && ([l] + rest)[1..] == rest;
    assert FirstModel([l] + rest) == [l] + tail;
    assert ([l] + tail)[1..] == tail;
  }

  /** A successful read appends every HETATM record, CONECT pair, helix and
      sheet, in line order. */
  lemma ReadAllRecords(c: Collected, ls: seq<Line>)
    requires ReadAll(c, ls).Some?
    ensures ReadAll(c, ls).value.hetatms == c.hetatms + HetatmsOf(ls)
    ensures ReadAll(c, ls).value.links == c.links + ConectPairs(ls)
    ensures ReadAll(c, ls).value.helices == c.helices + HelicesOf(ls)
    ensures ReadAll(c, ls).value.sheets == c.sheets + SheetsOf(ls)
  {
    ReadAllHetatms(c, ls);
    ReadAllLinks(c, ls);
    ReadAllRanges(c, ls);
  }

  lemma {:induction false} ReadAllHetatms(c: Collected, ls: seq<Line>)
    requires ReadAll(c, ls).Some?
    ensures ReadAll(c, ls).value.hetatms == c.hetatms + HetatmsOf(ls)
    decreases |ls|
  {
    if ls != [] {
      var d := Effect(c, ls[0]);
      assert ReadAll(c, ls) == ReadAll(d, ls[1..]);
      ReadAllHetatms(d, ls[1..]);
      assert d.hetatms + HetatmsOf(ls[1..]) == c.hetatms + (HetatmPiece(ls[0]) + HetatmsOf(ls[1..]));
    }
  }

  lemma {:induction false} ReadAllLinks(c: Collected, ls: seq<Line>)
    requires ReadAll(c, ls).Some?
    ensures ReadAll(c, ls).value.links == c.links + ConectPairs(ls)
    decreases |ls|
  {
    if ls != [] {
      var d := Effect(c, ls[0]);
      assert ReadAll(c, ls) == ReadAll(d, ls[1..]);
      ReadAllLinks(d, ls[1..]);
      assert d.links + ConectPairs(ls[1..]) == c.links + (ConectPiece(ls[0]) + ConectPairs(ls[1..]));
    }
  }

  lemma {:induction false} ReadAllRanges(c: Collected, ls: seq<Line>)
    requires ReadAll(c, ls).Some?
    ensures ReadAll(c, ls).value.helices == c.helices + HelicesOf(ls)
    ensures ReadAll(c, ls).value.sheets == c.sheets + SheetsOf(ls)
    decreases |ls|
  {
    if ls != [] {
      var d := Effect(c, ls[0]);
      assert ReadAll(c, ls) == ReadAll(d, ls[1..]);
      ReadAllRanges(d, ls[1..]);
      assert d.helices + HelicesOf(ls[1..]) == c.helices + (HelixPiece(ls[0]) + HelicesOf(ls[1..]));
      assert d.sheets + SheetsOf(ls[1..]) == c.sheets + (SheetPiece(ls[0]) + SheetsOf(ls[1..]));
    }
  }

  /** The mode flags after a successful read: `multiModel` once any MODEL
      line was seen, `inModel` set by the last MODEL and cleared by the last
      ENDMDL. */
  lemma {:induction false} ReadAllModelFlags(c: Collected, ls: seq<Line>)
    requires ReadAll(c, ls).Some?
    ensures ReadAll(c, ls).value.multiModel == (c.multiModel || HasModel(ls))
    ensures ReadAll(c, ls).value.inModel == InModelAfter(c.inModel, ls)
    decreases |ls|
  {
    if ls != [] {
      var d := Effect(c, ls[0]);
      ReadAllModelFlags(d, ls[1..]);
      assert HasModel(ls) == (ls[0].kind == ModelStart || HasModel(ls[1..])) by {
        if HasModel(ls[1..]) {
          var i :| 0 <= i < |ls[1..]| && ls[1..][i].kind == ModelStart;
          assert ls[i + 1] == ls[1..][i];
        }
        if HasModel(ls) && ls[0].kind != ModelStart {
          var i :| 0 <= i < |ls| && ls[i].kind == ModelStart;
          assert ls[1..][i - 1] == ls[i];
        }
      }
      InModelAfterCons(c.inModel, ls);
    }
  }

  /** Reading the first line, then the rest, as `InModelAfter` sees it. */
  lemma {:induction false} InModelAfterCons(b: bool, ls: seq<Line>)
    requires ls != []
    ensures InModelAfter(b, ls) == InModelAfter(
      if ls[0].kind == ModelStart then true else if ls[0].kind == Endmdl then false else b, ls[1..])
  {
    if |ls| > 1 {
      assert ls[..|ls| - 1][1..] == ls[1..][..|ls[1..]| - 1];
      assert ls[1..][|ls[1..]| - 1] == ls[|ls| - 1];
      InModelAfterCons(b, ls[..|ls| - 1]);
    }
  }

  /** Only the first model's ATOM records are kept: whatever follows the
      first ENDMDL line adds no atom, however many ATOM lines it holds. */
  lemma FirstModelOnly(pre: seq<Line>, endmdl: Line, post: seq<Line>)
    requires endmdl.kind == Endmdl
    requires forall i :: 0 <= i < |pre| ==> pre[i].kind != Endmdl
    requires ReadAll(Start, pre + [endmdl] + post).Some?
    ensures ReadAll(Start, pre + [endmdl] + post).value.atoms == AtomsOf(pre)
  {
    ReadAllAtoms(Start, pre + [endmdl] + post);
    FirstModelOfSplit(pre, endmdl, post);
  }

  lemma {:induction false} FirstModelOfSplit(pre: seq<Line>, endmdl: Line, post: seq<Line>)
    requires endmdl.kind == Endmdl
    requires forall i :: 0 <= i < |pre| ==> pre[i].kind != Endmdl
    ensures FirstModel(pre + [endmdl] + post) == pre
  {
    if pre != [] {
      assert (pre + [endmdl] + post)[1..] == pre[1..] + [endmdl] + post;
      FirstModelOfSplit(pre[1..], endmdl, post);
    } else {
      assert (pre + [endmdl] + post)[0] == endmdl;
    }
  }
}
