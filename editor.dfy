/**
 * The level editor's block-layout codec (js/scenes/EditorScene.js): the
 * editor keeps a flat list of blocks `{x, y, type}` (`blockGridData`), reads
 * it from the two layout formats of block_layout.json, toggles blocks with
 * clicks on a 20-pixel grid, and writes it back grouped by type.
 *
 * Coordinates are the JSON numbers, as reals. Rendering, the DOM, the
 * download and the other two generated files are outside the model.
 */
module Editor {

  import opened Wrappers
  import opened OrderedMap
  import opened Text
  import BlockTypes

  /** `currentBlockSize`: the editor's fixed cell size. */
  const BlockSize := 20
  /** The cell size the old grid format assumes when the file gives none. */
  const LegacyBlockSize: real := 40.0
  /** `currentBlockSize * 0.1`: how close a block must be to a clicked cell's centre to be removed. */
  const ClickTolerance: real := 2.0
  /** The block type a fresh editor selects. */
  const InitialSelectedType: string := "STANDARD"

  datatype Point = Point(x: real, y: real)

  /** One block of `blockGridData`: its centre and type. */
  datatype Entry = Entry(x: real, y: real, blockType: string)

  /** A group of the absolute format; `positions` is `None` when it is not an array. */
  datatype TypeGroup = TypeGroup(blockType: string, positions: Option<seq<Point>>)

  /** A block of the old grid format, by column and row. */
  datatype GridBlock = GridBlock(blockType: string, col: real, row: real)

  /**
   * The fields of a block_layout.json object the editor reads; an absent
   * field, or one that is not an array where an array is needed, is `None`.
   */
  datatype Layout = Layout(blockPositions: Option<seq<TypeGroup>>, gridOrigin: Option<Point>,
                           blockSize: Option<real>, blocks: Option<seq<GridBlock>>)

  /** What generateJsonOutput writes as block_layout.json. */
  datatype BlockLayout = BlockLayout(blockSize: int, blockPositions: seq<TypeGroup>)

  // ------------------------------------------------------------ type mapping

  /**
   * The map populateBlockTypeMapping builds from a list of type constants:
   * each constant under its upper-cased name.
   */
  function MappingOf(types: seq<string>): (m: map<string, string>)
    ensures forall i :: 0 <= i < |types| ==> UpperStr(types[i]) in m
    ensures forall k :: k in m ==> m[k] in types && UpperStr(m[k]) == k
  {
    if |types| == 0 then map[]
    else
      var t := types[|types| - 1];
      var m := MappingOf(types[..|types| - 1]);
      assert forall i :: 0 <= i < |types| - 1 ==> types[..|types| - 1][i] == types[i];
      m[UpperStr(t) := t]
  }

  /** One more constant files itself under its upper-cased name. */
  lemma MappingOfSnoc(types: seq<string>, i: nat)
    requires i < |types|
    ensures MappingOf(types[..i + 1]) == MappingOf(types[..i])[UpperStr(types[i]) := types[i]]
  {
    assert types[..i + 1][..i] == types[..i];
  }

  /** `stringToBlockType` once populated from BlockTypes.TYPES. */
  function TypeMapping(): map<string, string>
  {
    MappingOf(BlockTypes.Types)
  }

  lemma TypesAreLowerCase()
    ensures forall t :: t in BlockTypes.Types ==> IsLower(t) && t != ""
  {
    assert IsLower(BlockTypes.Standard) && IsLower(BlockTypes.Strong) && IsLower(BlockTypes.Dynamite);
    assert IsLower(BlockTypes.Eternal) && IsLower(BlockTypes.Bouncy);
  }

  /** The populated mapping sends each key to its lower-case form, a block type. */
  lemma TypeMappingLowerCases()
    ensures forall k :: k in TypeMapping() ==> TypeMapping()[k] == LowerStr(k) && TypeMapping()[k] in BlockTypes.Types
    ensures forall t :: t in BlockTypes.Types ==> UpperStr(t) in TypeMapping()
  {
    TypesAreLowerCase();
    forall k | k in TypeMapping()
      ensures TypeMapping()[k] == LowerStr(k)
    {
      LowerUpperStr(TypeMapping()[k]);
    }
  }

  lemma LowerOfUpper(s: string)
    ensures LowerStr(UpperStr(s)) == LowerStr(s)
    ensures UpperStr(LowerStr(s)) == UpperStr(s)
  {
  }

  /**
   * `stringToBlockType[t.toUpperCase()] || TYPES.STANDARD`: the type a layout
   * file names, looked up without regard to case.
   */
  function MapType(m: map<string, string>, t: string): string
  {
    var k := UpperStr(t);
    if k in m && m[k] != "" then m[k] else BlockTypes.Standard
  }

  /** With the populated mapping, a type name is read case-insensitively and an unknown one becomes STANDARD. */
  lemma MapTypeIgnoresCase(t: string)
    ensures MapType(TypeMapping(), t) == if LowerStr(t) in BlockTypes.Types then LowerStr(t) else BlockTypes.Standard
    ensures MapType(TypeMapping(), t) in BlockTypes.Types
  {
    TypeMappingLowerCases();
    TypesAreLowerCase();
    LowerOfUpper(t);
    var k := UpperStr(t);
    if LowerStr(t) in BlockTypes.Types {
      assert UpperStr(LowerStr(t)) in TypeMapping();
    }
    if k in TypeMapping() {
      assert TypeMapping()[k] == LowerStr(k) == LowerStr(t);
    }
  }

  // ------------------------------------------------------------ parsing

  /** The entries for a list of positions, all of one type, in order. */
  function Place(ps: seq<Point>, t: string): (r: seq<Entry>)
    ensures |r| == |ps|
    ensures forall i :: 0 <= i < |ps| ==> r[i] == Entry(ps[i].x, ps[i].y, t)
  {
    if |ps| == 0 then []
    else
      var r := Place(ps[..|ps| - 1], t);
      assert forall i :: 0 <= i < |ps| - 1 ==> ps[..|ps| - 1][i] == ps[i];
      r + [Entry(ps[|ps| - 1].x, ps[|ps| - 1].y, t)]
  }

  /** One group of the absolute format: skipped unless its type is non-empty and its positions an array. */
  function GroupEntries(m: map<string, string>, g: TypeGroup): seq<Entry>
  {
    if g.blockType != "" && g.positions.Some? then Place(g.positions.value, MapType(m, g.blockType)) else []
  }

  /** The absolute format: the groups' entries, group after group. */
  function AbsoluteEntries(m: map<string, string>, gs: seq<TypeGroup>): seq<Entry>
  {
    if |gs| == 0 then [] else AbsoluteEntries(m, gs[..|gs| - 1]) + GroupEntries(m, gs[|gs| - 1])
  }

  /** `blockLayoutData.blockSize || 40`. */
  function FileBlockSize(blockSize: Option<real>): (r: real)
    ensures blockSize.None? ==> r == LegacyBlockSize
    ensures blockSize.Some? && blockSize.value != 0.0 ==> r == blockSize.value
    ensures r != 0.0
  {
    if blockSize.Some? && blockSize.value != 0.0 then blockSize.value else LegacyBlockSize
  }

  /** The entry of an old-format block: the centre of its cell of the given size. */
  function GridEntry(m: map<string, string>, origin: Point, size: real, b: GridBlock): Entry
  {
    Entry(origin.x + b.col * size + size / 2.0, origin.y + b.row * size + size / 2.0, MapType(m, b.blockType))
  }

  /** The old grid format: one entry per block, in order. */
  function GridEntries(m: map<string, string>, origin: Point, size: real, bs: seq<GridBlock>): (r: seq<Entry>)
    ensures |r| == |bs|
    ensures forall i :: 0 <= i < |bs| ==> r[i] == GridEntry(m, origin, size, bs[i])
  {
    if |bs| == 0 then []
    else
      var r := GridEntries(m, origin, size, bs[..|bs| - 1]);
      assert forall i :: 0 <= i < |bs| - 1 ==> bs[..|bs| - 1][i] == bs[i];
      r + [GridEntry(m, origin, size, bs[|bs| - 1])]
  }

  /**
   * parseAndStoreBlockLayout's result: nothing for a missing layout; the
   * absolute format when `blockPositions` is an array; else the grid
   * format when it has an origin and a block array; else nothing.
   */
  function ParseLayout(m: map<string, string>, data: Option<Layout>): seq<Entry>
  {
    if data.None? then []
    else if data.value.blockPositions.Some? then AbsoluteEntries(m, data.value.blockPositions.value)
    else if data.value.gridOrigin.Some? && data.value.blocks.Some? then
      GridEntries(m, data.value.gridOrigin.value, FileBlockSize(data.value.blockSize), data.value.blocks.value)
    else []
  }

  /** The number of positions the groups list (the ones that are arrays). */
  function PositionCount(gs: seq<TypeGroup>): nat
  {
    if |gs| == 0 then 0
    else PositionCount(gs[..|gs| - 1]) + (if gs[|gs| - 1].positions.Some? then |gs[|gs| - 1].positions.value| else 0)
  }

  /** The absolute format yields one entry per listed position of a typed group; with the populated mapping every entry has a known type. */
  lemma {:induction false} AbsoluteEntriesCount(m: map<string, string>, gs: seq<TypeGroup>)
    requires forall i :: 0 <= i < |gs| ==> gs[i].blockType != ""
    ensures |AbsoluteEntries(m, gs)| == PositionCount(gs)
  {
    if |gs| > 0 {
      AbsoluteEntriesCount(m, gs[..|gs| - 1]);
    }
  }

  /** Read with the populated mapping, every parsed entry has one of the five block types. */
  lemma {:induction false} ParsedTypesKnown(gs: seq<TypeGroup>)
    ensures forall e :: e in AbsoluteEntries(TypeMapping(), gs) ==> e.blockType in BlockTypes.Types
  {
    if |gs| > 0 {
      ParsedTypesKnown(gs[..|gs| - 1]);
      MapTypeIgnoresCase(gs[|gs| - 1].blockType);
    }
  }

  /** An old-format centre lies strictly inside its cell, half a cell from its edges. */
  lemma GridCentreInCell(m: map<string, string>, origin: Point, blockSize: Option<real>, b: GridBlock)
    requires blockSize.None? || blockSize.value > 0.0
    ensures var size := FileBlockSize(blockSize);
            var e := GridEntry(m, origin, size, b);
            origin.x + b.col * size < e.x < origin.x + (b.col + 1.0) * size &&
            origin.y + b.row * size < e.y < origin.y + (b.row + 1.0) * size
  {
  }

  // ------------------------------------------------------------ clicks

  /** The centre of the 20-pixel cell holding coordinate v: `floor(v / 20) * 20 + 10`. */
  function CellCentre(v: real): (c: int)
    ensures (c - BlockSize / 2) as real <= v < (c + BlockSize / 2) as real
    ensures (c - BlockSize / 2) % BlockSize == 0
  {
    (v / BlockSize as real).Floor * BlockSize + BlockSize / 2
  }

  function Abs(v: real): real
  {
    if v < 0.0 then -v else v
  }

  predicate Near(e: Entry, cx: real, cy: real)
  {
    Abs(e.x - cx) < ClickTolerance && Abs(e.y - cy) < ClickTolerance
  }

  /** `findIndex` from position `from`: the first entry near (cx, cy). */
  function FindNear(list: seq<Entry>, cx: real, cy: real, from: nat): (r: Option<nat>)
    requires from <= |list|
    ensures r.Some? ==> from <= r.value < |list| && Near(list[r.value], cx, cy) &&
                        forall j :: from <= j < r.value ==> !Near(list[j], cx, cy)
    ensures r.None? ==> forall j :: from <= j < |list| ==> !Near(list[j], cx, cy)
    decreases |list| - from
  {
    if from == |list| then None
    else if Near(list[from], cx, cy) then Some(from)
    else FindNear(list, cx, cy, from + 1)
  }

  /** The type a click adds: `stringToBlockType[selected.toUpperCase()] || selected`. */
  function AddedType(m: map<string, string>, selected: string): string
  {
    var k := UpperStr(selected);
    if k in m && m[k] != "" then m[k] else selected
  }

  /** handleGridClick's new list: the first block at the clicked cell's centre goes, or a block of the selected type is added there. */
  function Click(list: seq<Entry>, m: map<string, string>, selected: string, x: real, y: real): seq<Entry>
  {
    var cx := CellCentre(x) as real;
    var cy := CellCentre(y) as real;
    match FindNear(list, cx, cy, 0)
    case Some(i) => list[..i] + list[i + 1..]
    case None => list + [Entry(cx, cy, AddedType(m, selected))]
  }

  /** A click on a cell with a block near its centre removes exactly the first such block. */
  lemma ClickRemovesFirstNear(list: seq<Entry>, m: map<string, string>, selected: string, x: real, y: real, i: nat)
    requires i < |list| && Near(list[i], CellCentre(x) as real, CellCentre(y) as real)
    requires forall j :: 0 <= j < i ==> !Near(list[j], CellCentre(x) as real, CellCentre(y) as real)
    ensures Click(list, m, selected, x, y) == list[..i] + list[i + 1..]
    ensures |Click(list, m, selected, x, y)| == |list| - 1
  {
  }

  /** A click on a cell with no block near its centre adds exactly one block, at that centre. */
  lemma ClickAddsAtCentre(list: seq<Entry>, m: map<string, string>, selected: string, x: real, y: real)
    requires forall j :: 0 <= j < |list| ==> !Near(list[j], CellCentre(x) as real, CellCentre(y) as real)
    ensures Click(list, m, selected, x, y) == list + [Entry(CellCentre(x) as real, CellCentre(y) as real, AddedType(m, selected))]
  {
  }

  /** Clicking the same empty cell twice gives back the original list. */
  lemma ClickTwiceRestores(list: seq<Entry>, m: map<string, string>, selected: string, x: real, y: real)
    requires forall j :: 0 <= j < |list| ==> !Near(list[j], CellCentre(x) as real, CellCentre(y) as real)
    ensures Click(Click(list, m, selected, x, y), m, selected, x, y) == list
  {
    var cx, cy := CellCentre(x) as real, CellCentre(y) as real;
    ClickAddsAtCentre(list, m, selected, x, y);
    var once := list + [Entry(cx, cy, AddedType(m, selected))];
    ClickRemovesFirstNear(once, m, selected, x, y, |list|);
    assert once[..|list|] + once[|list| + 1..] == list;
  }

  // ------------------------------------------------------------ output

  /** `Math.round`: the nearest integer, halves rounded up. */
  function Round(v: real): (r: int)
    ensures r as real - 0.5 <= v < r as real + 0.5
  {
    (v + 0.5).Floor
  }

  function Rounded(e: Entry): Point
  {
    Point(Round(e.x) as real, Round(e.y) as real)
  }

  function ValsAt(vals: map<string, seq<Point>>, k: string): seq<Point>
  {
    if k in vals then vals[k] else []
  }

  /** The upper-cased types of the blocks, in order. */
  function UpperTypes(es: seq<Entry>): (r: seq<string>)
    ensures |r| == |es| && forall i :: 0 <= i < |es| ==> r[i] == UpperStr(es[i].blockType)
  {
    seq(|es|, i requires 0 <= i < |es| => UpperStr(es[i].blockType))
  }

  /** The types of a list of groups, in order. */
  function GroupTypes(gs: seq<TypeGroup>): (r: seq<string>)
    ensures |r| == |gs| && forall j :: 0 <= j < |gs| ==> r[j] == gs[j].blockType
  {
    seq(|gs|, j requires 0 <= j < |gs| => gs[j].blockType)
  }

  /** The `blocksByType` object generateJsonOutput builds: rounded positions under upper-cased types, in first-seen order. */
  function GroupByType(es: seq<Entry>): (d: Dict<seq<Point>>)
    ensures Valid(d)
    ensures forall i :: 0 <= i < |es| ==> UpperStr(es[i].blockType) in d.vals
    ensures forall k :: k in d.vals ==> k in UpperTypes(es)
  {
    if |es| == 0 then Empty()
    else
      var d := GroupByType(es[..|es| - 1]);
      var e := es[|es| - 1];
      var k := UpperStr(e.blockType);
      assert forall i :: 0 <= i < |es| - 1 ==> es[..|es| - 1][i] == es[i];
      assert UpperTypes(es[..|es| - 1]) == UpperTypes(es)[..|es| - 1];
      Put(d, k, ValsAt(d.vals, k) + [Rounded(e)])
  }

  /** One more block adds its rounded position under its upper-cased type. */
  lemma GroupByTypeSnoc(es: seq<Entry>, i: nat)
    requires i < |es|
    ensures var d, k := GroupByType(es[..i]), UpperStr(es[i].blockType);
            GroupByType(es[..i + 1]) == Put(d, k, ValsAt(d.vals, k) + [Point(Round(es[i].x) as real, Round(es[i].y) as real)])
  {
    assert es[..i + 1][..i] == es[..i];
  }

  /** `Object.keys(blocksByType).map(...)`: one group per key, in key order. */
  function GroupsOf(keys: seq<string>, vals: map<string, seq<Point>>): (gs: seq<TypeGroup>)
    ensures |gs| == |keys|
    ensures forall i :: 0 <= i < |keys| ==> gs[i] == TypeGroup(keys[i], Some(ValsAt(vals, keys[i])))
  {
    seq(|keys|, i requires 0 <= i < |keys| => TypeGroup(keys[i], Some(ValsAt(vals, keys[i]))))
  }

  /** The block_layout.json generateJsonOutput writes for a list of blocks. */
  function Generated(es: seq<Entry>): BlockLayout
  {
    var d := GroupByType(es);
    BlockLayout(BlockSize, GroupsOf(d.keys, d.vals))
  }

  /** The written file read back as a layout object. */
  function AsLayout(out: BlockLayout): Layout
  {
    Layout(Some(out.blockPositions), None, Some(out.blockSize as real), None)
  }

  /** The output has one group per upper-cased type of the blocks, each type once, and no other group. */
  lemma GeneratedGroupsPerType(es: seq<Entry>)
    ensures var ts := GroupTypes(Generated(es).blockPositions);
            (forall i, j :: 0 <= i < j < |ts| ==> ts[i] != ts[j]) &&
            (forall k :: k in ts <==> k in UpperTypes(es))
  {
    var d := GroupByType(es);
    var ts := GroupTypes(Generated(es).blockPositions);
    assert ts == d.keys;
    forall k | k in UpperTypes(es)
      ensures k in d.keys
    {
      var i :| 0 <= i < |es| && UpperTypes(es)[i] == k;
      assert k in d.vals;
    }
  }

  /** The entries the groups of a dictionary describe, key after key, with every group read (none skipped). */
  function Flat(m: map<string, string>, keys: seq<string>, vals: map<string, seq<Point>>): seq<Entry>
  {
    if |keys| == 0 then []
    else Flat(m, keys[..|keys| - 1], vals) + Place(ValsAt(vals, keys[|keys| - 1]), MapType(m, keys[|keys| - 1]))
  }

  /** Each block as the output records it and the parser reads it back: rounded, its type upper-cased and mapped. */
  function Reread(m: map<string, string>, es: seq<Entry>): (r: seq<Entry>)
    ensures |r| == |es|
  {
    if |es| == 0 then []
    else
      var e := es[|es| - 1];
      Reread(m, es[..|es| - 1]) + [Entry(Round(e.x) as real, Round(e.y) as real, MapType(m, UpperStr(e.blockType)))]
  }

  /** Changing the groups of keys not listed leaves the flattening alone. */
  lemma {:induction false} FlatFrame(m: map<string, string>, keys: seq<string>, vals: map<string, seq<Point>>, k: string, v: seq<Point>)
    requires k !in keys
    ensures Flat(m, keys, vals[k := v]) == Flat(m, keys, vals)
  {
    if |keys| > 0 {
      assert keys[..|keys| - 1] <= keys;
      FlatFrame(m, keys[..|keys| - 1], vals, k, v);
    }
  }

  /** Appending a position to the group of a key listed once adds exactly its entry. */
  lemma {:induction false} FlatAppend(m: map<string, string>, keys: seq<string>, vals: map<string, seq<Point>>, k: string, p: Point)
    requires k in keys
    requires forall i, j :: 0 <= i < j < |keys| ==> keys[i] != keys[j]
    ensures multiset(Flat(m, keys, vals[k := ValsAt(vals, k) + [p]])) ==
            multiset(Flat(m, keys, vals)) + multiset{Entry(p.x, p.y, MapType(m, k))}
  {
    var n := |keys|;
    var front := keys[..n - 1];
    if keys[n - 1] == k {
      forall i | 0 <= i < n - 1
        ensures front[i] != k
      {
        assert keys[i] != keys[n - 1];
      }
      FlatAppendLast(m, keys, vals, p);
    } else {
      assert k in front by {
        var i :| 0 <= i < n && keys[i] == k;
        assert i < n - 1 && front[i] == k;
      }
      FlatAppendPrefix(keys);
      FlatAppend(m, front, vals, k, p);
      FlatAppendStep(m, keys, vals, k, p);
    }
  }

  /** Appending under a key before the last one: what holds of the earlier keys holds of all of them. */
  lemma FlatAppendStep(m: map<string, string>, keys: seq<string>, vals: map<string, seq<Point>>, k: string, p: Point)
    requires |keys| > 0 && keys[|keys| - 1] != k
    requires var front := keys[..|keys| - 1];
             multiset(Flat(m, front, vals[k := ValsAt(vals, k) + [p]])) ==
             multiset(Flat(m, front, vals)) + multiset{Entry(p.x, p.y, MapType(m, k))}
    ensures multiset(Flat(m, keys, vals[k := ValsAt(vals, k) + [p]])) ==
            multiset(Flat(m, keys, vals)) + multiset{Entry(p.x, p.y, MapType(m, k))}
  {
    FlatAppendEarlier(m, keys, vals, k, p);
  }

  /** A prefix of a list of distinct keys is distinct. */
  lemma FlatAppendPrefix(keys: seq<string>)
    requires |keys| > 0 && forall i, j :: 0 <= i < j < |keys| ==> keys[i] != keys[j]
    ensures var front := keys[..|keys| - 1];
            forall i, j :: 0 <= i < j < |front| ==> front[i] != front[j]
  {
  }

  /** Appending to the last key's group appends its entry at the end. */
  lemma FlatAppendLast(m: map<string, string>, keys: seq<string>, vals: map<string, seq<Point>>, p: Point)
    requires |keys| > 0 && keys[|keys| - 1] !in keys[..|keys| - 1]
    ensures var k := keys[|keys| - 1];
            Flat(m, keys, vals[k := ValsAt(vals, k) + [p]]) == Flat(m, keys, vals) + [Entry(p.x, p.y, MapType(m, k))]
  {
    var k := keys[|keys| - 1];
    var ps := ValsAt(vals, k);
    FlatFrame(m, keys[..|keys| - 1], vals, k, ps + [p]);
    PlaceAppend(ps, p, MapType(m, k));
  }

  /** Appending to an earlier key's group leaves the last key's part in place. */
  lemma FlatAppendEarlier(m: map<string, string>, keys: seq<string>, vals: map<string, seq<Point>>, k: string, p: Point)
    requires |keys| > 0 && keys[|keys| - 1] != k
    ensures var front, last := keys[..|keys| - 1], keys[|keys| - 1];
            var vals' := vals[k := ValsAt(vals, k) + [p]];
            Flat(m, keys, vals') == Flat(m, front, vals') + Place(ValsAt(vals, last), MapType(m, last)) &&
            Flat(m, keys, vals) == Flat(m, front, vals) + Place(ValsAt(vals, last), MapType(m, last))
  {
  }

  lemma PlaceAppend(ps: seq<Point>, p: Point, t: string)
    ensures Place(ps + [p], t) == Place(ps, t) + [Entry(p.x, p.y, t)]
  {
    assert (ps + [p])[..|ps|] == ps;
  }

  /** The grouped output holds every block once, rounded and under its upper-cased type. */
  lemma {:induction false} GroupByTypeKeepsBlocks(m: map<string, string>, es: seq<Entry>)
    ensures var d := GroupByType(es);
            multiset(Flat(m, d.keys, d.vals)) == multiset(Reread(m, es))
  {
    if |es| > 0 {
      var front := es[..|es| - 1];
      var e := es[|es| - 1];
      var d := GroupByType(front);
      var k := UpperStr(e.blockType);
      var p := Rounded(e);
      GroupByTypeKeepsBlocks(m, front);
      assert Reread(m, es) == Reread(m, front) + [Entry(p.x, p.y, MapType(m, k))];
      FlatPut(m, d, k, p);
    }
  }

  /** Adding one position under `k` adds exactly its entry to the flattening. */
  lemma FlatPut(m: map<string, string>, d: Dict<seq<Point>>, k: string, p: Point)
    requires Valid(d)
    ensures var d' := Put(d, k, ValsAt(d.vals, k) + [p]);
            multiset(Flat(m, d'.keys, d'.vals)) == multiset(Flat(m, d.keys, d.vals)) + multiset{Entry(p.x, p.y, MapType(m, k))}
  {
    if k in d.vals {
      FlatAppend(m, d.keys, d.vals, k, p);
    } else {
      FlatFrame(m, d.keys, d.vals, k, [p]);
      var keys' := d.keys + [k];
      assert keys'[..|keys'| - 1] == d.keys;
      assert Place([p], MapType(m, k)) == [Entry(p.x, p.y, MapType(m, k))];
    }
  }

  /** Groups with non-empty types are all read, so parsing them is the flattening. */
  lemma {:induction false} ParseGroupsIsFlat(m: map<string, string>, keys: seq<string>, vals: map<string, seq<Point>>)
    requires forall i :: 0 <= i < |keys| ==> keys[i] != ""
    ensures AbsoluteEntries(m, GroupsOf(keys, vals)) == Flat(m, keys, vals)
    ensures PositionCount(GroupsOf(keys, vals)) == |Flat(m, keys, vals)|
  {
    if |keys| > 0 {
      var front := keys[..|keys| - 1];
      ParseGroupsIsFlat(m, front, vals);
      assert GroupsOf(keys, vals)[..|keys| - 1] == GroupsOf(front, vals);
    }
  }

  /**
   * The written layout lists as many positions as there are blocks, and
   * parsing it gives back, in some order, each block rounded and with its
   * upper-cased type mapped.
   */
  lemma GenerateThenParse(m: map<string, string>, es: seq<Entry>)
    requires forall i :: 0 <= i < |es| ==> es[i].blockType != ""
    ensures PositionCount(Generated(es).blockPositions) == |es|
    ensures multiset(ParseLayout(m, Some(AsLayout(Generated(es))))) == multiset(Reread(m, es))
  {
    var d := GroupByType(es);
    forall i | 0 <= i < |d.keys|
      ensures d.keys[i] != ""
    {
      assert d.keys[i] in d.vals;
      assert d.keys[i] in UpperTypes(es);
      var j :| 0 <= j < |es| && UpperTypes(es)[j] == d.keys[i];
    }
    ParseGroupsIsFlat(m, d.keys, d.vals);
    GroupByTypeKeepsBlocks(m, es);
    assert |multiset(Flat(m, d.keys, d.vals))| == |Reread(m, es)|;
  }

  predicate Integral(v: real)
  {
    v == v.Floor as real
  }

  /** A block with whole coordinates and a known type survives being written and read back unchanged. */
  lemma {:induction false} RereadKnown(es: seq<Entry>)
    requires forall i :: 0 <= i < |es| ==> es[i].blockType in BlockTypes.Types && Integral(es[i].x) && Integral(es[i].y)
    ensures Reread(TypeMapping(), es) == es
  {
    if |es| > 0 {
      var e := es[|es| - 1];
      RereadKnown(es[..|es| - 1]);
      RereadEntryKnown(e);
      assert es[..|es| - 1] + [e] == es;
    }
  }

  /** One block with whole coordinates and a known type is read back as itself. */
  lemma RereadEntryKnown(e: Entry)
    requires e.blockType in BlockTypes.Types && Integral(e.x) && Integral(e.y)
    ensures Entry(Round(e.x) as real, Round(e.y) as real, MapType(TypeMapping(), UpperStr(e.blockType))) == e
  {
    MapTypeIgnoresCase(UpperStr(e.blockType));
    TypesAreLowerCase();
    LowerUpperStr(e.blockType);
    assert Round(e.x) == e.x.Floor;
    assert Round(e.y) == e.y.Floor;
  }

  /** For whole coordinates and known types, parsing the generated layout gives back the same blocks, in some order. */
  lemma RoundTrip(es: seq<Entry>)
    requires forall i :: 0 <= i < |es| ==> es[i].blockType in BlockTypes.Types && Integral(es[i].x) && Integral(es[i].y)
    ensures multiset(ParseLayout(TypeMapping(), Some(AsLayout(Generated(es))))) == multiset(es)
    ensures PositionCount(Generated(es).blockPositions) == |es|
  {
    TypesAreLowerCase();
    GenerateThenParse(TypeMapping(), es);
    RereadKnown(es);
  }

  // ------------------------------------------------------------ the scene

  lemma UnionUpdate(a: map<string, string>, b: map<string, string>, k: string, v: string)
    ensures (a + b)[k := v] == a + b[k := v]
  {
  }

  class EditorScene {
    var blockGridData: seq<Entry>
    var stringToBlockType: map<string, string>
    var selectedBlockType: string

    constructor ()
      ensures blockGridData == [] && stringToBlockType == map[] && selectedBlockType == InitialSelectedType
    {
      blockGridData := [];
      stringToBlockType := map[];
      selectedBlockType := InitialSelectedType;
    }

    /** populateBlockTypeMapping: each type constant is filed under its upper-cased name. */
    method PopulateBlockTypeMapping()
      modifies this
      ensures stringToBlockType == old(stringToBlockType) + TypeMapping()
      ensures blockGridData == old(blockGridData) && selectedBlockType == old(selectedBlockType)
    {
      var types := BlockTypes.Types;
      for i := 0 to |types|
        invariant stringToBlockType == old(stringToBlockType) + MappingOf(types[..i])
        invariant blockGridData == old(blockGridData) && selectedBlockType == old(selectedBlockType)
      {
        MappingOfSnoc(types, i);
        UnionUpdate(old(stringToBlockType), MappingOf(types[..i]), UpperStr(types[i]), types[i]);
        stringToBlockType := stringToBlockType[UpperStr(types[i]) := types[i]];
      }
      assert types[..|types|] == types;
    }

    /** parseAndStoreBlockLayout: the list is cleared and refilled from the layout (ParseLayout). */
    method ParseAndStoreBlockLayout(data: Option<Layout>)
      modifies this
      ensures blockGridData == ParseLayout(stringToBlockType, data)
      ensures stringToBlockType == old(stringToBlockType) && selectedBlockType == old(selectedBlockType)
    {
      blockGridData := [];
      if data.None? {
        return;
      }
      var layout := data.value;
      if layout.blockPositions.Some? {
        var groups := layout.blockPositions.value;
        for i := 0 to |groups|
          invariant blockGridData == AbsoluteEntries(stringToBlockType, groups[..i])
          invariant stringToBlockType == old(stringToBlockType) && selectedBlockType == old(selectedBlockType)
        {
          assert groups[..i + 1][..i] == groups[..i];
          AddGroup(groups[i]);
        }
        assert groups[..|groups|] == groups;
      } else if layout.gridOrigin.Some? && layout.blocks.Some? {
        var origin, blocks := layout.gridOrigin.value, layout.blocks.value;
        var size := FileBlockSize(layout.blockSize);
        for i := 0 to |blocks|
          invariant blockGridData == GridEntries(stringToBlockType, origin, size, blocks[..i])
          invariant stringToBlockType == old(stringToBlockType) && selectedBlockType == old(selectedBlockType)
        {
          assert blocks[..i + 1][..i] == blocks[..i];
          blockGridData := blockGridData + [GridEntry(stringToBlockType, origin, size, blocks[i])];
        }
        assert blocks[..|blocks|] == blocks;
      }
    }

    /** One group of the absolute format, pushed position by position. */
    method AddGroup(g: TypeGroup)
      modifies this
      ensures blockGridData == old(blockGridData) + GroupEntries(stringToBlockType, g)
      ensures stringToBlockType == old(stringToBlockType) && selectedBlockType == old(selectedBlockType)
    {
      var blockType := MapType(stringToBlockType, g.blockType);
      if g.blockType != "" && g.positions.Some? {
        var ps := g.positions.value;
        for j := 0 to |ps|
          invariant blockGridData == old(blockGridData) + Place(ps[..j], blockType)
          invariant stringToBlockType == old(stringToBlockType) && selectedBlockType == old(selectedBlockType)
        {
          assert ps[..j + 1][..j] == ps[..j];
          blockGridData := blockGridData + [Entry(ps[j].x, ps[j].y, blockType)];
        }
        assert ps[..|ps|] == ps;
      }
    }

    /** handleGridClick at (x, y): the block toggles at the centre of the clicked cell (Click). */
    method HandleGridClick(x: real, y: real)
      modifies this
      ensures blockGridData == Click(old(blockGridData), stringToBlockType, selectedBlockType, x, y)
      ensures stringToBlockType == old(stringToBlockType) && selectedBlockType == old(selectedBlockType)
    {
      var centreX := CellCentre(x) as real;
      var centreY := CellCentre(y) as real;
      var existing := FindNear(blockGridData, centreX, centreY, 0);
      if existing.Some? {
        var i := existing.value;
        blockGridData := blockGridData[..i] + blockGridData[i + 1..];
      } else {
        blockGridData := blockGridData + [Entry(centreX, centreY, AddedType(stringToBlockType, selectedBlockType))];
      }
    }

    /** clearAllBlocksInternal: the list is emptied (rendering is outside the model). */
    method ClearAllBlocksInternal(alsoRender: bool)
      modifies this
      ensures blockGridData == []
      ensures stringToBlockType == old(stringToBlockType) && selectedBlockType == old(selectedBlockType)
    {
      blockGridData := [];
    }

    /**
     * The block-layout part of generateJsonOutput: the blocks grouped by
     * upper-cased type in first-seen order, positions rounded.
     */
    method GenerateBlockLayout() returns (out: BlockLayout)
      ensures out == Generated(blockGridData)
    {
      var blocksByType: Dict<seq<Point>> := Empty();
      var blocks := blockGridData;
      for i := 0 to |blocks|
        invariant blocksByType == GroupByType(blocks[..i])
      {
        GroupByTypeSnoc(blocks, i);
        var typeKey := UpperStr(blocks[i].blockType);
        var positions := if typeKey in blocksByType.vals then blocksByType.vals[typeKey] else [];
        blocksByType := Put(blocksByType, typeKey, positions + [Point(Round(blocks[i].x) as real, Round(blocks[i].y) as real)]);
      }
      assert blocks[..|blocks|] == blocks;
      out := BlockLayout(BlockSize, GroupsOf(blocksByType.keys, blocksByType.vals));
    }
  }
}
