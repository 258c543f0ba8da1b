# PDB ingestion core of protvis-jfx, in Dafny

protvis-jfx is a JavaFX protein viewer. Before drawing anything it reads a
PDB flat file into an object model. The model here covers that ingestion
path, the `Parser(String)` constructor, and the structure classes it builds:

- **Record parsing** (`Parser.readFile` and the `parse*` methods). Each line
  is classified by its first six characters with whitespace removed. Fields
  are cut out of fixed columns. Java's `substring`, `replaceAll("\\s+", "")`
  and `Integer.parseInt` are modelled with their exceptions, over strings
  of characters (see "Left out" for where this differs from Java).
  ATOM lines are kept only until the first ENDMDL. HETATM, CONECT, HELIX,
  SHEET and the HEADER/TITLE/REMARK text are always kept.
- **Grouping** (`Parser.buildModel`). Atoms are grouped into residues where
  the residue number changes, and residues into chains where the chain
  identifier changes. This is modelled as written: the last atom and the
  last residue are never placed, fewer than two items give nothing, and a
  residue is named after a lagging `resName` variable.
- **Residue topology** (`Aminoacid.makeLinks`). A table of atom-name pairs
  per residue type, turned into bonds. An absent atom gives a bond with a
  null end.
- **Chains and model** (`Chain`, `Model`). Concatenated lists, backbone
  bonds between consecutive N/CA/C atoms that are close enough, indices by
  chain identifier, residue number and atom serial (the last `put` wins),
  helix and sheet resolution, heteroatoms, and residue visibility.

Modules follow the Java structure:

- `Results` holds Option/Result.
- `JavaText` holds the java.lang string pieces.
- `Records` holds the `parse*` column extractors.
- `Reading` is the line-by-line specification of `readFile`.
- `Grouping` is the run-length grouping of `buildModel`.
- `Indexing` is a HashMap filled by `put`.
- `Topology` is the `makeLinks` table.
- `Primary` holds the classes `Atom`, `Bond` and `Aminoacid`.
- `Secondary` holds the classes `Helix` and `Sheet`.
- `Structure` holds the classes `Chain` and `Model`.
- `Parsing` holds the class `Parser` and `Open`, the whole constructor.

Some inputs are parameters of the model:

- The file's content is a parameter `lines: seq<string>`.
- Coordinates are the whitespace-free column text (`Records.Point`), kept
  opaque.
- Whether `Double.parseDouble` accepts a text is a parameter
  `isDecimal: string -> bool`.
- The distance test `distance < 2` of `makeMainChain` is a parameter
  `near`.
- The test in `center()` that an atom lies away from the origin is a
  parameter `away`.

Java's unchecked exceptions are modelled as follows:

- `StringIndexOutOfBoundsException` and `NumberFormatException` in a record
  parser become a failed `Result`. They end the whole read, as they escape
  the constructor.
- The null dereferences of resolution make the modelled method return
  `false`. They stop at the same point, leaving the state as Java leaves it.

## Model

| member | source | states |
|---|---|---|
| JavaText.StripSpace | src/application/Parser.java:109-110 | `replaceAll("\\s+", "")` leaves no whitespace, never lengthens, keeps a whitespace-free string unchanged and keeps only characters of the input |
| JavaText.StripSpaceConcat | src/application/Parser.java:109-110 | stripping distributes over concatenation |
| JavaText.Substring | src/application/Parser.java:183 | `substring(lo, hi)` succeeds exactly when `hi` is within the line, and then is the characters from `lo` up to `hi`; otherwise it is an index exception |
| JavaText.ParseInt | src/application/Parser.java:224-225 | `Integer.parseInt` rejects the empty text and any text not starting with a digit or sign; a text of digits, optionally after `+` or `-`, is accepted exactly when its value fits in 32 bits, and then reads as that value with its sign |
| JavaText.ParseIntDecimal | src/application/Parser.java:224-225 | `parseInt` reads back every 32-bit value written in decimal, positive or negative |
| JavaText.DigitsValueOfDecimal | src/application/Parser.java:224-225 | the digits of a natural number read back as that number |
| JavaText.IntField | src/application/Parser.java:224-225 | an integer field succeeds exactly when the columns exist and the stripped text parses, and then is that value |
| JavaText.TextField | src/application/Parser.java:204 | a text field succeeds exactly when the columns exist, and then is the stripped column text |
| JavaText.Decimal | src/application/Parser.java:224-225 | `Integer.toString` of a natural number is a non-empty digit string |
| Records.RecordType | src/application/Parser.java:109-110 | the record type exists exactly for lines of six or more characters and is the first six characters without whitespace; `Reading.Kind` dispatches on it |
| Records.DecimalField | src/application/Parser.java:378-380 | a coordinate column succeeds exactly when `parseDouble` accepts its stripped text, and is that text |
| Records.ParseHeader | src/application/Parser.java:182-187 | succeeds exactly for lines of 50+ characters, giving the untrimmed columns 10-50 and a newline |
| Records.ParseTitle | src/application/Parser.java:189-194 | succeeds exactly for lines of 80+ characters, giving the untrimmed columns 10-80 and a newline |
| Records.ParseRemark | src/application/Parser.java:196-201 | succeeds exactly for lines of 79+ characters, giving the untrimmed columns 11-79 and a newline |
| Records.ParseLink | src/application/Parser.java:203-221 | keeps nothing; fails exactly when the line is shorter than 56 or either residue number does not parse |
| Records.ParseSeqres | src/application/Parser.java:257-290 | keeps nothing; fails exactly when the line is shorter than 70 or the serial does not parse |
| Records.ParseHelix | src/application/Parser.java:292-316 | succeeds exactly when serial, both residue numbers, the class (read from the initial-number columns) and length parse, giving the range from columns 21-25, 33-37, 19 and 31 |
| Records.ParseSheet | src/application/Parser.java:318-340 | succeeds exactly when strand, strand count, both residue numbers and sense parse, giving sheet id 11-14, numbers 22-26 and 33-37, chains 21 and 32 |
| Records.ParseAtom | src/application/Parser.java:369-392 | succeeds exactly for lines of 78+ characters whose serial, residue number and three coordinates parse; the record holds the stripped serial, name, residue, chain, number, position and element columns; a long enough line fails only by number format |
| Records.ParseHetatm | src/application/Parser.java:342-367 | as ATOM but needs 80 characters and parseable occupancy and temperature factor, and keeps the chain and element columns unstripped |
| Records.BondedSerial | src/application/Parser.java:227-232 | a CONECT field names at most one serial, none when blank |
| Records.BondedSerials | src/application/Parser.java:227-253 | the four CONECT fields name at most four serials |
| Records.PairsFrom | src/application/Parser.java:231-252 | one pair per bonded serial, in order, all starting at the record's serial |
| Records.PairsFromConcat | src/application/Parser.java:227-253 | the pairs of consecutive fields concatenate |
| Records.BondedPair | src/application/Parser.java:227-232 | one field succeeds exactly when blank or numeric, giving its pair or nothing |
| Records.ParseConect | src/application/Parser.java:223-255 | succeeds exactly when the serial parses and each field is blank or numeric, giving one (serial, bonded) pair per non-blank field in column order |
| Reading.Kind | src/application/Parser.java:109-174 | a line shorter than six characters selects no case |
| Reading.LookupFinds | src/application/Parser.java:115-174 | a case is found exactly when one of the cases carries the label, and the case found carries it |
| Reading.KindLabel | src/application/Parser.java:109-174 | a line of six or more characters selects a case exactly when its record type is some case's label, and then that case's |
| Reading.Typed | src/application/Parser.java:115-174 | a line is kept with the case it selects |
| Reading.TypedWellTyped | src/application/Parser.java:115-174 | what each case makes of a line has that case's shape |
| Reading.TypedAll | src/application/Parser.java:105 | every line is classified, in order |
| Reading.Extended | src/application/Parser.java:115-174 | the switch changes no line count, and otherwise applies the line's effect |
| Reading.Step | src/application/Parser.java:105-176 | one loop iteration: a successful one only appends to the collected fields and counts the line |
| Reading.ReadAll | src/application/Parser.java:105-176 | a successful read counts every line |
| Reading.ReadAllGrows | src/application/Parser.java:105-176 | a successful read only appends to the collected fields |
| Reading.ExtendedKeeps | src/application/Parser.java:115-174 | LINK, SEQRES, TER, unknown types and ATOM after an ENDMDL change no collected field |
| Reading.ParseKeepsNothing | src/application/Parser.java:134-174 | MODEL, ENDMDL, TER and unknown types parse nothing; LINK and SEQRES only check their fields |
| Reading.StepIgnores | src/application/Parser.java:106-174 | a line shorter than six characters throws; a line that keeps nothing only counts the line and updates the model flags and counter |
| Reading.ReadAllSnoc | src/application/Parser.java:105-176 | reading one more line continues from the shorter read |
| Reading.ReadAllNext | src/application/Parser.java:105-176 | the read of i+1 lines is one loop step after the read of i |
| Reading.ReadAllFails | src/application/Parser.java:105-176 | a line that throws ends the whole read |
| Reading.ReadAllStops | src/application/Parser.java:105-176 | no line after a throw changes the outcome |
| Reading.ReadAllOk | src/application/Parser.java:105-176 | the read succeeds exactly when every line is read without an exception |
| Reading.ReadAllCounts | src/application/Parser.java:106-167 | a successful read counts every line and every ENDMDL |
| Reading.ReadAllMeta | src/application/Parser.java:182-201 | `meta` is the in-order concatenation of the HEADER, TITLE and REMARK slices |
| Reading.FirstModel | src/application/Parser.java:155-169 | the lines before the first ENDMDL: a prefix free of ENDMDL, followed by one if shorter |
| Reading.ReadAllAtoms | src/application/Parser.java:155-169 | the ATOM records kept are exactly those before the first ENDMDL |
| Reading.ReadAllRecords | src/application/Parser.java:143-163 | every HETATM record, CONECT pair, helix and sheet is appended, in order, regardless of models |
| Reading.ReadAllHetatms | src/application/Parser.java:151-154 | the HETATM records are appended in order |
| Reading.ReadAllLinks | src/application/Parser.java:161-165 | the CONECT pairs are appended in order |
| Reading.ReadAllRanges | src/application/Parser.java:143-150 | the helices and sheets are appended in order |
| Reading.ReadAllModelFlags | src/application/Parser.java:134-169 | `multiModel` is set once a MODEL is seen; `inModel` follows the last MODEL or ENDMDL |
| Reading.FirstModelOnly | src/application/Parser.java:155-169 | whatever follows the first ENDMDL contributes no ATOM record |
| Reading.FirstModelOfSplit | src/application/Parser.java:155-169 | the first model of lines split at their first ENDMDL is the part before it |
| Grouping.RunsTile | src/application/Parser.java:401-416 | with two or more items the groups tile all items but the last; each group is non-empty, has one key, starts where the key changes and carries the lagging name |
| Grouping.RunsInRange | src/application/Parser.java:401-416 | every group is non-empty and within the items |
| Grouping.RunsShort | src/application/Parser.java:401-416 | fewer than two items give no group |
| Grouping.RunsPrefixTile | src/application/Parser.java:401-416 | the groups before group n tile the items before it |
| Grouping.Covered | src/application/Parser.java:401-416 | each tiled position lies in some group |
| Grouping.RunsSplitWhereKeyChanges | src/application/Parser.java:407-415 | a group starts at an inner position exactly when its key differs from its predecessor's |
| Grouping.ConcatPieces | src/application/Parser.java:401-416 | the groups' items concatenate back to the tiled range |
| Indexing.Put | src/application/structure/Model.java:81-91 | the keys after the puts are the old keys and every key put |
| Indexing.PutLastWins | src/application/structure/Model.java:81-91 | a key maps to the value of its last put |
| Indexing.PutElsewhere | src/application/structure/Model.java:518-524 | a key no put names keeps its value |
| Indexing.PutFound | src/application/structure/Model.java:81-91 | every key put maps to the value of its last occurrence |
| Indexing.PutValues | src/application/structure/Model.java:81-91 | every value after the puts was there before or was put |
| Topology.Shared | src/application/structure/primary/Aminoacid.java:206-230 | the shared pairs number between one and five |
| Topology.Links | src/application/structure/primary/Aminoacid.java:206-549 | the shared pairs come first in every residue's table |
| Topology.SideChain | src/application/structure/primary/Aminoacid.java:232-549 | every side chain has at least two pairs, and every type but GLY starts with a pair from CB |
| Topology.Classify | src/application/structure/primary/Aminoacid.java:232 | a case found is one of the cases and carries the label looked up |
| Topology.FirstLinkIsCarbonyl | src/application/structure/primary/Aminoacid.java:206 | the first bond of every residue is C-O |
| Topology.AlphaCarbonLinks | src/application/structure/primary/Aminoacid.java:208-211 | every type but GLY next bonds CA-HA then CA-CB |
| Topology.SharedAmide | src/application/structure/primary/Aminoacid.java:213-225 | the shared pairs hold N-H once, except for PRO |
| Topology.AmideHydrogenOnce | src/application/structure/primary/Aminoacid.java:213-225 | every type but PRO gets exactly one N-H bond and PRO none |
| Topology.TerminalOxygen | src/application/structure/primary/Aminoacid.java:227-230 | an OXT-C bond is made exactly when the residue has an OXT atom |
| Topology.SideChainAvoids | src/application/structure/primary/Aminoacid.java:232-549 | no side chain bonds N-H or OXT-C |
| Topology.SideChainOfAvoids | src/application/structure/primary/Aminoacid.java:232-549 | no side chain the switch adds bonds N-H or OXT-C |
| Topology.ClassifyFinds | src/application/structure/primary/Aminoacid.java:232 | a type found in the cases has that label; none is found exactly when no case has it |
| Topology.ClassifyCode | src/application/structure/primary/Aminoacid.java:232-549 | the switch finds the case of every type it names |
| Topology.KnownTypeSideChain | src/application/structure/primary/Aminoacid.java:232-549 | a named type gets its side chain after the shared pairs |
| Topology.UnknownTypeSharedOnly | src/application/structure/primary/Aminoacid.java:232-549 | any other type gets only the shared pairs |
| Topology.CodeInjective | src/application/structure/primary/Aminoacid.java:232-549 | no two cases share a label |
| Topology.TableQuirks | src/application/structure/primary/Aminoacid.java:232-549 | MET repeats its three CG pairs, ARG has no CG-CD pair and VAL no CB-CG1/CB-CG2 pairs |
| Topology.SideChainEnds1 | src/application/structure/primary/Aminoacid.java:232-549 | the side-chain pairs of ASN, TYR, LEU, ILE and GLN name atoms of two or more characters |
| Topology.SideChainEnds2 | src/application/structure/primary/Aminoacid.java:232-549 | the same for TRP, LYS, ASP, GLY and PRO |
| Topology.SideChainEnds3 | src/application/structure/primary/Aminoacid.java:232-549 | the same for SER, ARG, ALA, CYS and GLU |
| Topology.SideChainEnds4 | src/application/structure/primary/Aminoacid.java:232-549 | the same for HIS, MET, PHE, THR and VAL |
| Primary.CpkColor | src/application/structure/primary/Atom.java:57-102 | C is gray, O red, N blue, S yellow, FE brown, F and CL green, each exactly for those elements; no element is purple, so all others are white |
| Primary.Atom.constructor | src/application/structure/primary/Atom.java:41-122 | stores every field unchanged, takes the CPK colour of the element and starts with no bonds |
| Primary.Atom.AddBond | src/application/structure/primary/Atom.java:228-230 | appends exactly one bond and changes no identity field |
| Primary.Atom.SetSerial | src/application/structure/primary/Atom.java:200-202 | changes only the serial |
| Primary.Atom.SetResidue | src/application/structure/primary/Atom.java:208-210 | writes the residue name (its parameter is called chainID) and nothing else |
| Primary.Atom.SetChainID | src/application/structure/primary/Atom.java:224-226 | changes only the chain identifier |
| Primary.Bond.Between | src/application/structure/primary/Bond.java:26-46 | stores both ends; with both present the bond gets a cylinder and is appended to both atoms' lists, otherwise it is registered with neither |
| Primary.Bond.Colored | src/application/structure/primary/Bond.java:48-66 | as `Bond(a, b)`, with a cylinder of the given colour |
| Primary.Bond.Serials | src/application/structure/primary/Bond.java:68-71 | keeps only the two serials; both ends null and no shape |
| Primary.Bond.SetAtomA | src/application/structure/primary/Bond.java:188-190 | replaces only the first end |
| Primary.Bond.SetAtomB | src/application/structure/primary/Bond.java:196-198 | replaces only the second end |
| Primary.Names | src/application/structure/primary/Aminoacid.java:57-61 | the atoms' names, in order |
| Primary.Aminoacid.constructor | src/application/structure/primary/Aminoacid.java:43-69 | keeps the atoms in order, indexes them by name with the last winning, takes chain and number from the first atom and makes one bond per table pair, each registered at the atoms it joins |
| Primary.Aminoacid.GetAtom | src/application/structure/primary/Aminoacid.java:586-588 | `getAtom(n)` is non-null exactly when the name is indexed, and then is the atom indexed under it |
| Primary.Aminoacid.GetAtomFinds | src/application/structure/primary/Aminoacid.java:586-588 | `getAtom(n)` finds an atom exactly when one is named n, and then the last such |
| Primary.Aminoacid.MakeLinks | src/application/structure/primary/Aminoacid.java:205-550 | appends one bond per table pair for the type and OXT presence, joining the looked-up atoms (null when absent); each atom's list grows by the bonds that join it |
| Primary.Aminoacid.AddLinks | src/application/structure/primary/Aminoacid.java:206-549 | for any list of pairs: one fresh bond per pair, in order, and every atom's list grows by exactly its bonds |
| Primary.Aminoacid.AddLink | src/application/structure/primary/Aminoacid.java:206-549 | one more pair keeps the loop's bond and incidence invariant |
| Primary.Aminoacid.NewBond | src/application/structure/primary/Aminoacid.java:206 | `new Bond(getAtom(a), getAtom(b))` added to the residue's bonds |
| Primary.Aminoacid.SetVisible | src/application/structure/primary/Aminoacid.java:189 | sets only visibility |
| Secondary.AlphaCarbon | src/application/structure/secondary/Helix.java:147-151 | a residue's CA position exists exactly when it has an atom named CA |
| Secondary.Helix.constructor | src/application/structure/secondary/Helix.java:52-57 | stores the range unchanged, with no residues and no shape |
| Secondary.Helix.SetAcids | src/application/structure/secondary/Helix.java:143-156 | stores both ends; either end null gives the origin placeholder; both present succeeds exactly when both have a CA, giving the span between them |
| Secondary.Helix.SetSerial | src/application/structure/secondary/Helix.java:123-125 | changes only the serial |
| Secondary.Helix.SetInitSeqNum | src/application/structure/secondary/Helix.java:131-133 | changes only the initial number |
| Secondary.Helix.SetEndSeqNum | src/application/structure/secondary/Helix.java:139-141 | changes only the end number |
| Secondary.Helix.SetStartChainID | src/application/structure/secondary/Helix.java:162-164 | changes only the start chain |
| Secondary.Helix.SetEndChainID | src/application/structure/secondary/Helix.java:170-172 | changes only the end chain |
| Secondary.Sheet.constructor | src/application/structure/secondary/Sheet.java:52-59 | stores id, numbers and chains unchanged, with no residues and no shape |
| Secondary.Sheet.SetAcids | src/application/structure/secondary/Sheet.java:142-156 | as for a helix |
| Secondary.Sheet.SetInitChainID | src/application/structure/secondary/Sheet.java:172-174 | changes only the initial chain |
| Secondary.Sheet.SetEndChainID | src/application/structure/secondary/Sheet.java:190-192 | changes only the end chain |
| Structure.AtomsOfContains | src/application/structure/Chain.java:58-63 | every atom of a residue is in the concatenation |
| Structure.AtomsOfAppend | src/application/structure/Chain.java:58-63 | concatenating residue lists concatenates their atoms |
| Structure.AtomsOfWithin | src/application/structure/Chain.java:58-63 | the concatenation holds only the residues' atoms |
| Structure.AtomsOfFrom | src/application/structure/Chain.java:58-63 | every atom of the concatenation comes from one of the residues |
| Structure.ResIDs | src/application/structure/Chain.java:62 | each residue's number, in order |
| Structure.BackboneFilters | src/application/structure/Chain.java:88-92 | the backbone holds exactly the atoms named N, CA or C |
| Structure.StepsExactly | src/application/structure/Chain.java:94-102 | a backbone bond joins atoms k and k+1 exactly when they are near, in increasing order |
| Structure.StepsBelowExactly | src/application/structure/Chain.java:94-102 | the same for the first n steps |
| Structure.Gather | src/application/structure/Chain.java:58-61 | the residues' atoms and bonds concatenated |
| Structure.IndexAcids | src/application/structure/Chain.java:62 | the residue index with the last put winning; every entry is under its own number |
| Structure.Chain.constructor | src/application/structure/Chain.java:44-75 | keeps the residues, takes the first one's chain, concatenates atoms and bonds, indexes residues and builds the backbone bonds, each added to the atoms it joins; no atom's serial, residue or chain changes |
| Structure.Chain.MakeMainChain | src/application/structure/Chain.java:87-103 | the backbone is the N/CA/C filter; one white bond per near consecutive pair, in order, added to both ends' lists |
| Structure.Chain.LinkBackbone | src/application/structure/Chain.java:94-102 | the bond loop alone, with the same result |
| Structure.Chain.NewBackboneBond | src/application/structure/Chain.java:98-100 | a fresh white bond between atoms i and i+1, added to both |
| Structure.Chain.GetAcid | src/application/structure/Chain.java:201-203 | null exactly when the number is not indexed, else a residue with that number |
| Structure.Chain.GetAcidFinds | src/application/structure/Chain.java:201-203 | `getAcid(r)` finds a residue exactly when one has number r, and then the last such |
| Structure.Chain.SetAminoacids | src/application/structure/Chain.java:157-159 | replaces only the residue list |
| Structure.Chain.AppendAminoacids | src/application/structure/Chain.java:161-163 | appends to the residue list and changes nothing else |
| Structure.Chain.SetSerial | src/application/structure/Chain.java:169-171 | changes only the serial |
| Structure.Chain.SetChainID | src/application/structure/Chain.java:177-179 | changes only the chain identifier |
| Structure.ChainIDs | src/application/structure/Model.java:74 | each chain's identifier, in order |
| Structure.Serials | src/application/structure/Model.java:88-91 | each atom's serial, in order |
| Structure.Flatten | src/application/structure/Model.java:59-79 | residues, atoms, bonds and backbone bonds concatenated over the chains; chain index with the last winning |
| Structure.IndexAtoms | src/application/structure/Model.java:88-91 | one put per atom under its serial |
| Structure.Build | src/application/structure/Model.java:59-91 | all lists and the three indices of the model |
| Structure.Model.constructor | src/application/structure/Model.java:59-98 | lists concatenated in chain order; chain, residue and atom indices built by puts in that order, the last winning; no heteroatoms, helices, sheets, links or text |
| Structure.Model.Center | src/application/structure/Model.java:106-121 | the furthest atom is found exactly when some atom lies away from the origin |
| Structure.Model.ChainFound | src/application/structure/Model.java:74 | a chain identifier is indexed exactly when some chain has it, and then names the last such |
| Structure.Model.Lookup | src/application/structure/Model.java:139-145 | the chain is missing exactly when its identifier is not indexed; the residue is null exactly when the chain lacks that number |
| Structure.Model.PlaceHelix | src/application/structure/Model.java:137-148 | succeeds exactly when the range resolves, placing the helix; the range is unchanged |
| Structure.Model.SetHelices | src/application/structure/Model.java:489-492 | stores the helices; succeeds exactly when every range resolves, and otherwise stops at the first that does not, having placed the ones before |
| Structure.Model.PlaceSheet | src/application/structure/Model.java:153-164 | as for a helix |
| Structure.Model.SetSheets | src/application/structure/Model.java:499-502 | as for helices |
| Structure.Model.Stop | src/application/structure/Model.java:387-391 | where a walk from start towards end stops: every number before it is indexed, and it is end or the first missing one |
| Structure.Model.ToggleAcidVisibility | src/application/structure/Model.java:387-391 | succeeds exactly when every number in [start, end) is indexed; exactly the indexed residues passed get the new visibility |
| Structure.Model.SetHetAtoms | src/application/structure/Model.java:518-524 | stores the heteroatoms and puts each into the atom index under its serial, overwriting |
| Structure.Model.SetMetaInfo | src/application/structure/Model.java:480-482 | changes only the text |
| Structure.Model.AtomAt | src/application/structure/Model.java:173-174 | `atomMap.get(s)`: the indexed atom, or null when the serial is absent |
| Structure.Model.AttachAndRedraw | src/application/structure/Model.java:170-177 | sets both ends from the index; the redraw succeeds exactly when the bond has a cylinder |
| Structure.Model.SetExplicitLinks | src/application/structure/Model.java:531-534 | stores the links; succeeds exactly when every link has a cylinder; every link before the first failure is attached |
| Structure.Model.SerialLinkFails | src/application/structure/Model.java:169-180 | a link made from two serials makes `setExplicitLinks` fail |
| Structure.Model.ResolveLinks | src/application/structure/Model.java:169-176 | every link gets the atoms indexed under its serials |
| Parsing.AtomRecords | src/application/Parser.java:369-392 | the fields of the atoms, in order |
| Parsing.SerialPairs | src/application/Parser.java:231-252 | the serial pairs of the CONECT bonds, in order |
| Parsing.HelixRanges | src/application/Parser.java:315 | the ranges of the helices, in order |
| Parsing.SheetRanges | src/application/Parser.java:338-339 | the ranges of the sheets, in order |
| Parsing.MakeLinks | src/application/Parser.java:231-252 | one fresh shapeless serial bond per pair, in order |
| Parsing.ResIDKeys | src/application/Parser.java:407-408 | the residue numbers of the records, in order |
| Parsing.ResidueTags | src/application/Parser.java:410 | the residue names of the records, in order |
| Parsing.ResidueChainIDs | src/application/Parser.java:401-416 | one chain identifier per residue formed |
| Parsing.AcidChainIDs | src/application/Parser.java:431-432 | the chain identifiers of the residues, in order |
| Parsing.MakeResidue | src/application/Parser.java:404-413 | a residue over the open group, named as given, with its first atom's chain and residue number; no atom's fields change |
| Parsing.GroupResidues | src/application/Parser.java:401-416 | residue k holds the atoms of group k, is named with the lagging name and takes its first atom's chain; no atom's fields change |
| Parsing.MakeChain | src/application/Parser.java:428-437 | a chain over the open group of residues, with the first one's chain, its residues indexed by number with the last winning |
| Parsing.CloseChain | src/application/Parser.java:428-439 | closing the group keeps the chain loop's invariant |
| Parsing.ChainIteration | src/application/Parser.java:425-440 | one iteration keeps the chain loop's invariant |
| Parsing.GroupChains | src/application/Parser.java:425-440 | chain k holds the residues of group k over the residues' chain identifiers |
| Parsing.GroupedWithin | src/application/Parser.java:401-416 | every residue formed is well formed and holds only atoms read |
| Parsing.GroupedChainIDs | src/application/Parser.java:401-416 | the residues carry the chains their records give them |
| Parsing.Held | src/application/Parser.java:425-440 | the residues placed: all but the last from two on, none below two |
| Parsing.Group | src/application/Parser.java:401-440 | both loops: residues grouped by number, chains by identifier; the chains hold every residue but the last, and their atoms; no atom's or heteroatom's record changes |
| Parsing.GroupedPieces | src/application/Parser.java:401-416 | the residues' atoms concatenate to their groups |
| Parsing.ChainedPieces | src/application/Parser.java:425-440 | the chains' residues concatenate to their groups, and their atoms to those residues' atoms |
| Parsing.ChainsHold | src/application/Parser.java:425-440 | the chains hold exactly the residues but the last, in order |
| Parsing.ResiduesHold | src/application/Parser.java:401-416 | the residues but the last hold exactly the atoms before the last group |
| Parsing.LeadIDs | src/application/Parser.java:425-440 | one identifier per chain group, that of the group's first residue |
| Parsing.ChainedIDs | src/application/Parser.java:425-440 | the chains built carry the identifiers of their groups' first residues |
| Parsing.FormedPieces | src/application/Parser.java:425-440 | the chains' atoms concatenate to the atoms of their groups' residues |
| Parsing.FormedAtoms | src/application/Parser.java:401-440 | the chains' atoms are exactly the atoms of the residues placed |
| Parsing.AwayPrefix | src/application/Parser.java:401-416 | some atom of a prefix lies away from the origin exactly when its record does |
| Parsing.CentredIff | src/application/Parser.java:442 | centring completes exactly when some record before the last residue's group lies away from the origin |
| Parsing.HeldAtoms | src/application/Parser.java:401-440 | the chains formed hold exactly the atoms read before the last residue's first atom |
| Parsing.RecordSerials | src/application/structure/Model.java:89-91 | the serial numbers of the records, in order, as the atom index is keyed |
| Parsing.NewModel | src/application/Parser.java:442 | `new Model(chains)` completes exactly when some atom lies away from the origin; then it holds the chains by identifier, their residues by number and their atoms by serial, and no heteroatoms, text, secondary structure or links |
| Parsing.Finish | src/application/Parser.java:443-445 | the heteroatoms indexed by serial over the chains' atoms, overwriting equal serials, and the text stored; no secondary structure or links |
| Parsing.BuiltOver | src/application/Parser.java:401-442 | the model built over the chains formed holds the placed residues, indexed by number, and the atoms read before the last residue, keyed by their records' serials |
| Parsing.Assemble | src/application/Parser.java:442-445 | the model exactly when centring completes: chains by identifier, placed residues by number, the atoms before the last residue by their records' serials with the heteroatoms indexed over them, and the text |
| Parsing.Resolve | src/application/Parser.java:71-72 | succeeds exactly when every helix and sheet range resolves; then all are placed; ranges, heteroatoms and text unchanged |
| Parsing.BuildFrom | src/application/Parser.java:394-446 | the grouping of both loops with every record kept, the heteroatoms' serials read from their records, and the assembled model over the placed residues and atoms, indexed by number and serial |
| Parsing.Parser.constructor | src/application/Parser.java:42-62 | the collected fields start empty, inside a model, with no model built |
| Parsing.Parser.ReadLine | src/application/Parser.java:105-174 | one loop iteration: succeeds exactly when the line is read without an exception, and then the fields are `Reading.Step`'s next state |
| Parsing.Parser.CountLine | src/application/Parser.java:106 | only the line count grows by one |
| Parsing.Parser.Dispatch | src/application/Parser.java:115-174 | the switch fails exactly on a malformed line other than an ignored ATOM, and otherwise applies the line's effect |
| Parsing.Parser.AddMeta | src/application/Parser.java:182-201 | appends the slice to the text |
| Parsing.Parser.OpenModel | src/application/Parser.java:134-137 | sets both model flags |
| Parsing.Parser.CloseModel | src/application/Parser.java:166-169 | counts the model and leaves the model section |
| Parsing.Parser.AddHelix | src/application/Parser.java:292-316 | appends a helix over the range read |
| Parsing.Parser.AddSheet | src/application/Parser.java:318-340 | appends a sheet over the range read |
| Parsing.Parser.AddHetatm | src/application/Parser.java:342-367 | appends an atom with the fields read |
| Parsing.Parser.AddAtom | src/application/Parser.java:369-392 | appends an atom with the fields read |
| Parsing.Parser.AddLinks | src/application/Parser.java:223-255 | appends one serial bond per pair |
| Parsing.Parser.ReadFile | src/application/Parser.java:96-180 | succeeds exactly when `Reading.ReadAll` of all lines does, and then the fields are its result |
| Parsing.Parser.BuildModel | src/application/Parser.java:394-446 | groups the atoms read into residues and chains (atoms, residue index, identifiers), keeping the atoms' records; the model is set exactly when centring completes, with its chains by identifier, its residues by number, the atoms by their records' serials with the heteroatoms over them, and the text |
| Parsing.Parser.PlaceSecondary | src/application/Parser.java:71-72 | helices then sheets on the model; succeeds exactly when all resolve |
| Parsing.Parser.Complete | src/application/Parser.java:70-72 | builds and resolves; succeeds exactly when centring completes and every range resolves; when centring fails the model is untouched; once it completes the model holds the placed residues by number, the atoms by their records' serials and the chains by identifier, and on success the heteroatoms indexed over those atoms, the helices, sheets and text |
| Parsing.Open | src/application/Parser.java:53-73 | `new Parser(lines)`: null exactly when a line throws, no record placed in a chain lies away from the origin, or a range does not resolve; the model is built exactly when such a record exists; otherwise the collected fields are those of `Reading.ReadAll`, the atoms carry the records read and are grouped, and the model indexes them by those records' serials, then the heteroatoms by theirs |

## Left out

- I/O: the file's lines are a parameter. A reader's `IOException` and the
  closing `println` are not modelled.
- `Parser(File)` is not modelled. It never creates `hetatmList` or `links`,
  so no call of it completes. Its `readFile` throws a
  `NullPointerException` on a HETATM line (`hetatmList.add`,
  Parser.java:365) and on a CONECT line naming a bonded atom (`links.add`,
  Parser.java:231). Otherwise `buildModel` throws one in
  `setHetAtoms(null)` (Model.java:520, called at Parser.java:443), if
  `new Model` has not thrown already. Its call of `setExplicitLinks`
  (Parser.java:93) is therefore never reached.
- Columns: Java's `substring` counts UTF-16 code units, while the model
  counts characters. The two differ only for characters outside the Basic
  Multilingual Plane.
- Floating point: `Double.parseDouble` is the parameter `isDecimal`;
  `distance < 2` is the parameter `near`; `center()` decides only whether a
  furthest atom exists (parameter `away`), and its translation, `moveTo`,
  sizes and lengths are not modelled.
- JavaText.ParseInt: accepts ASCII digits only, whereas Java also accepts
  other Unicode decimal digits.
- Rendering: JavaFX nodes, cylinders, materials, `makeCylinder`,
  `makeSheet`, visibility modes, colour modes, cursor scopes, and the
  `setVisible` calls on helices, sheets and links. Only the resolution part
  of `renderHelices`, `renderSheets` and `renderLinks` is modelled.
- The Parser field `chains`: `buildModel` assigns a local of the same name,
  so the field is never used.
- The `Helix(Aminoacid, Aminoacid)` and `Sheet(Aminoacid, Aminoacid)`
  constructors: nothing in the ingestion path calls them.
- Getters: they are read directly as fields.
- Structure.Chain.MakeMainChain: does not state that the new backbone bonds
  are fresh objects.
- Structure.Chain.SetAminoacids: Java stores the caller's list itself, so
  later changes to either are shared; the model stores a value.
- Structure.Chain.AppendAminoacids: appends to the stored list, which in
  Java may be a list the caller still holds; the model has no aliasing.
- Structure.Model.constructor: sets the heteroatoms, helices, sheets,
  explicit links and text to empty values, whereas Java leaves those fields
  null until their setters run (Model.java:32-52).
- Parsing.Parser.BuildModel: states the chains' atoms, residue indices and
  identifiers (`Formed`, `LeadIDs`) but not their `aminoacids` and
  `chainID` fields (`Chained`); `Parsing.Group` and `Parsing.BuildFrom`
  state those. It states the heteroatoms' serials as read from their
  records, but not that their other fields keep their records.
- Parsing.Parser.Complete: likewise states `Formed` and not `Chained`, and
  the heteroatoms only through their serials.
- Parsing.Open: likewise states `Formed` and not `Chained`; of the
  heteroatoms it states their number and their records' serials as index
  keys, not their other fields.
- Parsing.Holds: states the fields no method changes (position, name,
  element, residue number); the atoms' serial, residue and chain fields
  are stated through `AtomRecords`, which `Parsing.Open` states equal to
  the records read.
- Bond positions: the setters `Bond.setPosA` and `Bond.setPosB`
  (Bond.java:204-214) are not modelled; nothing in the ingestion path
  calls them.

## Findings

| source | as written | input that shows it | evidently intended | confidence | as-written member | corrected member |
|---|---|---|---|---|---|---|
| src/application/structure/Model.java:169-180 | `renderLinks` sets each link's ends from the atom index, then calls `makeCylinder(color)`, which draws between the link's `posA` and `posB` (Bond.java:173-175, dereferenced at Bond.java:140); `Bond(int, int)` never sets them, and `setAtomA`/`setAtomB` do not either | a public call of `Model.setExplicitLinks` with a list holding `new Bond(1, 2)`, atoms 1 and 2 in the index; neither parser constructor reaches it: `Parser(String)` never calls `setExplicitLinks`, and `Parser(File)` never completes (see Left out) | every link attached to the atoms indexed under its serials | not executed | Structure.Model.SetExplicitLinks, Structure.Model.SerialLinkFails | Structure.Model.ResolveLinks |
