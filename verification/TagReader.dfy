/** Variable-width tags of a tagged union: how the bitfield generator accepts an encoding
    (TaggedUnion.make_classes, resolve, set_base) and the tag reader it generates
    (kernel/tools/bitfield_gen.py). */
module TagReader {
  import opened Words
  import opened BlockFields

  /** One element of a union: its tag value, the tag field of its block, and the block's base and size. */
  datatype Tag = Tag(value: nat, offset: nat, size: nat, high: bool, blockBase: nat, blockSize: nat)

  /** What a resolved union is generated from: class masks are relative to `classOffset`. */
  datatype Encoding = Encoding(tagOffset: map<nat, nat>, classOffset: nat,
                               classes: map<nat, nat>, widths: seq<nat>)

  ghost predicate Increasing(s: seq<nat>) {
    forall i, j :: 0 <= i < j < |s| ==> s[i] < s[j]
  }

  /** `ws` is the sorted list of the keys of `m`. */
  ghost predicate SortedKeys(ws: seq<nat>, m: map<nat, nat>) {
    && Increasing(ws)
    && (forall i :: 0 <= i < |ws| ==> ws[i] in m)
    && (forall w :: w in m ==> w in ws)
  }

  lemma {:induction false} SortedKeysSize(ws: seq<nat>, m: map<nat, nat>)
    requires SortedKeys(ws, m) && m != map[]
    ensures ws != []
  {
    var w :| w in m;
    assert w in ws;
  }

  method Sorted(m: map<nat, nat>) returns (r: seq<nat>)
    ensures SortedKeys(r, m)
  {
    r := [];
    var rest := m.Keys;
    while rest != {}
      invariant rest <= m.Keys && Increasing(r)
      invariant forall i :: 0 <= i < |r| ==> r[i] in m
      invariant forall x :: x in m ==> x in rest || x in r
      invariant forall i, y :: 0 <= i < |r| && y in rest ==> r[i] < y
      decreases rest
    {
      var least := Least(rest);
      r := r + [least];
      rest := rest - {least};
    }
  }

  method Least(s: set<nat>) returns (m: nat)
    requires s != {}
    ensures m in s && forall y :: y in s ==> m <= y
  {
    m :| m in s;
    var others := s;
    while others != {}
      invariant m in s && others <= s
      invariant forall y :: y in s && y !in others ==> m <= y
      decreases others
    {
      var y :| y in others;
      others := others - {y};
      if y < m { m := y; }
    }
  }

  /** The offset recorded for each width: a later element overwrites an earlier one. */
  function TagOffsets(tags: seq<Tag>): (m: map<nat, nat>)
    ensures forall t :: t in tags ==> t.size in m
  {
    if tags == [] then map[]
    else
      var t := tags[|tags| - 1];
      assert tags == tags[..|tags| - 1] + [t];
      TagOffsets(tags[..|tags| - 1])[t.size := t.offset]
  }

  lemma SizeRecorded(tags: seq<Tag>, i: nat)
    requires i < |tags|
    ensures tags[i].size in TagOffsets(tags)
  {
    assert tags[i] in tags;
  }

  ghost predicate IsMinimum(m: map<nat, nat>, c: nat) {
    (exists w :: w in m && m[w] == c) && forall w :: w in m ==> c <= m[w]
  }

  /** Every bit of `m`, moved up by `shift`, lies in the field of `w` bits at `offset`. */
  ghost predicate InField(m: nat, shift: nat, w: nat, offset: nat) {
    forall i: nat :: Bit(m, i) ==> offset <= i + shift < offset + w
  }

  /** The bounds test of the generator: `(m << shift) | field == field`. */
  method TestInField(m: nat, shift: nat, w: nat, offset: nat) returns (b: bool)
    ensures b <==> InField(m, shift, w, offset)
  {
    var field := Shl(Pow2(w) - 1, offset);
    b := Or(Shl(m, shift), field) == field;
    WithinIff(Shl(m, shift), field);
    forall i: nat ensures Bit(field, i) == (offset <= i < offset + w) {
      BitShl(Pow2(w) - 1, offset, i);
      if i >= offset { BitOnes(w, i - offset); }
    }
    if InField(m, shift, w, offset) {
      forall i: nat | Bit(Shl(m, shift), i) ensures Bit(field, i) {
        BitShl(m, shift, i);
        assert Bit(m, i - shift);
      }
    } else {
      var i: nat :| Bit(m, i) && !(offset <= i + shift < offset + w);
      BitShl(m, shift, i + shift);
      assert !Bit(field, i + shift);
    }
  }

  /** The inclusion test of the generator: `(a & m) == m`. */
  method TestCovers(a: nat, m: nat) returns (b: bool)
    ensures b <==> Covers(a, m)
  {
    CoversIff(a, m);
    b := And(a, m) == m;
  }

  /** The sanity checks of `make_classes`, on masks already moved to the class offset. */
  ghost predicate MasksAccepted(e: Encoding) {
    && e.tagOffset.Keys == e.classes.Keys
    && SortedKeys(e.widths, e.classes)
    && (forall i :: 0 <= i < |e.widths| ==>
          InField(e.classes[e.widths[i]], e.classOffset, e.widths[i], e.tagOffset[e.widths[i]]))
    && (|e.widths| > 1 ==> e.classes[e.widths[0]] != 0)
    && (forall i :: 1 <= i < |e.widths| - 1 ==> e.classes[e.widths[i - 1]] != e.classes[e.widths[i]])
    && (forall i :: 1 <= i < |e.widths| ==> Covers(e.classes[e.widths[i]], e.classes[e.widths[i - 1]]))
  }

  /** The declared masks moved to the class offset. */
  ghost predicate Moved(declared: map<nat, nat>, classes: map<nat, nat>, tagOffset: map<nat, nat>, c: nat) {
    && classes.Keys == declared.Keys <= tagOffset.Keys
    && (forall w :: w in tagOffset ==> c <= tagOffset[w])
    && forall w :: w in declared ==> classes[w] == Shl(declared[w], tagOffset[w] - c)
  }

  /** `assert_value_in_class`: the value fits its field, matches the mask of every narrower class
      and, unless its class is the last, does not match its own. */
  ghost predicate ValueInClass(e: Encoding, value: nat, width: nat)
    requires MasksAccepted(e) && width in e.tagOffset && e.classOffset <= e.tagOffset[width]
  {
    && InField(value, e.tagOffset[width], width, e.tagOffset[width])
    && MarksClass(e, Shl(value, e.tagOffset[width] - e.classOffset), width)
  }

  ghost predicate MarksClass(e: Encoding, cvalue: nat, width: nat)
    requires MasksAccepted(e) && width in e.tagOffset
  {
    && (forall i :: 0 <= i < |e.widths| && e.widths[i] < width ==> Covers(cvalue, e.classes[e.widths[i]]))
    && (e.widths[|e.widths| - 1] != width ==> !Covers(cvalue, e.classes[width]))
  }

  /** What `resolve` checks of each element, and `set_base` of the tag fields. */
  ghost predicate Accepted(tags: seq<Tag>, e: Encoding, base: nat) {
    && base > 0 && tags != []
    && MasksAccepted(e)
    && IsMinimum(e.tagOffset, e.classOffset)
    && (forall i :: 0 <= i < |tags| ==> ElementAccepted(e, tags[i], tags[0]))
    && (forall w :: w in e.tagOffset ==> e.tagOffset[w] / base == e.classOffset / base)
  }

  ghost predicate TagAccepted(e: Encoding, t: Tag)
    requires MasksAccepted(e) && IsMinimum(e.tagOffset, e.classOffset)
  {
    t.size in e.tagOffset && t.offset == e.tagOffset[t.size] && ValueInClass(e, t.value, t.size) && !t.high
  }

  /** Also, its block has the base and the size of the first element's. */
  ghost predicate ElementAccepted(e: Encoding, t: Tag, first: Tag)
    requires MasksAccepted(e) && IsMinimum(e.tagOffset, e.classOffset)
  {
    TagAccepted(e, t) && t.blockBase == first.blockBase && t.blockSize == first.blockSize
  }

  ghost predicate Narrowest(w0: nat, m: map<nat, nat>) {
    w0 in m && forall w :: w in m ==> w0 <= w
  }

  class TaggedUnion {
    const tags: seq<Tag>
    var classes: map<nat, nat>
    var tagOffset: map<nat, nat>
    var classOffset: nat
    var widths: seq<nat>

    constructor (tags: seq<Tag>, declared: map<nat, nat>)
      ensures this.tags == tags && classes == declared
    {
      this.tags, classes := tags, declared;
      tagOffset, classOffset, widths := map[], 0, [];
    }

    ghost function Resolved(): Encoding
      reads this
    {
      Encoding(tagOffset, classOffset, classes, widths)
    }

    method RecordOffsets()
      modifies this`tagOffset
      ensures tagOffset == TagOffsets(tags)
    {
      tagOffset := map[];
      for i := 0 to |tags|
        invariant tagOffset == TagOffsets(tags[..i])
      {
        tagOffset := tagOffset[tags[i].size := tags[i].offset];
        assert tags[..i + 1][..i] == tags[..i];
      }
      assert tags[..|tags|] == tags;
    }

    method MinimumOffset()
      requires tagOffset != map[]
      modifies this`classOffset
      ensures IsMinimum(tagOffset, classOffset)
    {
      var ws := Sorted(tagOffset);
      ghost var some :| some in tagOffset;
      assert some in ws;
      classOffset := tagOffset[ws[0]];
      ghost var at := ws[0];
      for i := 1 to |ws|
        invariant at in tagOffset && tagOffset[at] == classOffset
        invariant forall j :: 0 <= j < i ==> classOffset <= tagOffset[ws[j]]
      {
        if tagOffset[ws[i]] < classOffset { classOffset := tagOffset[ws[i]]; at := ws[i]; }
      }
      forall w | w in tagOffset ensures classOffset <= tagOffset[w] { assert w in ws; }
    }

    /** Moves each declared mask from its own field to the class offset. */
    method MoveMasks()
      requires classes.Keys <= tagOffset.Keys
      requires forall w :: w in tagOffset ==> classOffset <= tagOffset[w]
      modifies this`classes
      ensures Moved(old(classes), classes, tagOffset, classOffset)
    {
      var ws := Sorted(classes);
      for k := 0 to |ws|
        invariant classes.Keys == old(classes).Keys
        invariant forall j :: 0 <= j < k ==> classes[ws[j]] == Shl(old(classes)[ws[j]], tagOffset[ws[j]] - classOffset)
        invariant forall j :: k <= j < |ws| ==> classes[ws[j]] == old(classes)[ws[j]]
      {
        var w := ws[k];
        classes := classes[w := Shl(classes[w], tagOffset[w] - classOffset)];
      }
    }

    /** The bounds check of every mask. */
    method CheckBounds() returns (ok: bool)
      requires classes.Keys <= tagOffset.Keys && SortedKeys(widths, classes)
      ensures ok <==> forall i :: 0 <= i < |widths| ==>
                        InField(classes[widths[i]], classOffset, widths[i], tagOffset[widths[i]])
    {
      for i := 0 to |widths|
        invariant forall j :: 0 <= j < i ==> InField(classes[widths[j]], classOffset, widths[j], tagOffset[widths[j]])
      {
        var b := TestInField(classes[widths[i]], classOffset, widths[i], tagOffset[widths[i]]);
        if !b { return false; }
      }
      ok := true;
    }

    /** Smaller masks are included in larger ones. */
    method CheckNesting() returns (ok: bool)
      requires SortedKeys(widths, classes) && widths != []
      ensures ok <==> forall i :: 1 <= i < |widths| ==> Covers(classes[widths[i]], classes[widths[i - 1]])
    {
      for i := 1 to |widths|
        invariant forall j :: 1 <= j < i ==> Covers(classes[widths[j]], classes[widths[j - 1]])
      {
        var b := TestCovers(classes[widths[i]], classes[widths[i - 1]]);
        if !b { return false; }
      }
      ok := true;
    }

    /** The sanity checks, in the order the generator makes them. */
    method CheckMasks() returns (ok: bool)
      requires classes.Keys <= tagOffset.Keys && widths != []
      requires SortedKeys(widths, classes)
      ensures ok <==> MasksAccepted(Resolved())
    {
      if !(tagOffset.Keys <= classes.Keys) { return false; }
      var bounds := CheckBounds();
      if !bounds { return false; }
      if |widths| > 1 && classes[widths[0]] == 0 { return false; }
      if exists i | 1 <= i < |widths| - 1 :: classes[widths[i - 1]] == classes[widths[i]] { return false; }
      ok := CheckNesting();
    }

    /** `make_classes`: false where the generator raises, which is exactly for an empty union, a
        mask of a width that no element has, or masks that fail the sanity checks. */
    method MakeClasses() returns (ok: bool)
      modifies this
      ensures tagOffset == TagOffsets(tags)
      ensures ok <==> tags != [] && old(classes).Keys <= tagOffset.Keys && MasksAccepted(Resolved())
      ensures tags != [] && old(classes).Keys <= tagOffset.Keys ==>
                IsMinimum(tagOffset, classOffset) && SortedKeys(widths, classes)
      ensures tags != [] && old(classes).Keys <= tagOffset.Keys ==>
                if old(classes) == map[] then exists w0: nat :: Narrowest(w0, tagOffset) && classes == map[w0 := 0]
                else Moved(old(classes), classes, tagOffset, classOffset)
    {
      RecordOffsets();
      if |tags| == 0 { return false; }
      assert tags[0].size in tagOffset;
      MinimumOffset();
      if !(classes.Keys <= tagOffset.Keys) { return false; }
      MoveMasks();
      if classes == map[] {
        DefaultClass();
      }
      widths := Sorted(classes);
      SortedKeysSize(widths, classes);
      ok := CheckMasks();
    }

    /** Without declared masks there is one class, of the narrowest width. */
    method DefaultClass()
      requires tagOffset != map[]
      modifies `classes
      ensures exists w0: nat :: Narrowest(w0, tagOffset) && classes == map[w0 := 0]
    {
      var usedWidths := Sorted(tagOffset);
      SortedKeysSize(usedWidths, tagOffset);
      forall w | w in tagOffset ensures usedWidths[0] <= w { assert w in usedWidths; }
      assert Narrowest(usedWidths[0], tagOffset);
      classes := map[usedWidths[0] := 0];
    }

    /** `assert_value_in_class`. */
    method CheckValue(value: nat, width: nat) returns (ok: bool)
      requires MasksAccepted(Resolved()) && width in tagOffset && classOffset <= tagOffset[width]
      ensures ok <==> ValueInClass(Resolved(), value, width)
    {
      ok := TestInField(value, tagOffset[width], width, tagOffset[width]);
      if !ok { return; }
      ok := CheckClass(Shl(value, tagOffset[width] - classOffset), width);
    }

    method CheckClass(cvalue: nat, width: nat) returns (ok: bool)
      requires MasksAccepted(Resolved()) && width in tagOffset
      ensures ok <==> MarksClass(Resolved(), cvalue, width)
    {
      assert width in widths;
      ok := CheckNarrower(cvalue, width);
      if !ok { return; }
      var own := TestCovers(cvalue, classes[width]);
      ok := widths[|widths| - 1] == width || !own;
    }

    /** The value marks every class that is narrower than its own. */
    method CheckNarrower(cvalue: nat, width: nat) returns (ok: bool)
      requires SortedKeys(widths, classes)
      ensures ok <==> forall j :: 0 <= j < |widths| && widths[j] < width ==> Covers(cvalue, classes[widths[j]])
    {
      ok := true;
      for i := 0 to |widths|
        invariant forall j :: 0 <= j < i && widths[j] < width ==> Covers(cvalue, classes[widths[j]])
      {
        if widths[i] < width {
          ok := TestCovers(cvalue, classes[widths[i]]);
          if !ok { return; }
        }
      }
    }

    /** The checks of `resolve` on one element. */
    method CheckTag(t: Tag) returns (ok: bool)
      requires MasksAccepted(Resolved()) && IsMinimum(tagOffset, classOffset) && t.size in tagOffset && tags != []
      ensures ok <==> ElementAccepted(Resolved(), t, tags[0])
    {
      if t.blockBase != tags[0].blockBase || t.blockSize != tags[0].blockSize { return false; }
      if t.offset != tagOffset[t.size] { return false; }
      ok := CheckValue(t.value, t.size);
      ok := ok && !t.high;
    }

    method CheckTags() returns (ok: bool)
      requires MasksAccepted(Resolved()) && IsMinimum(tagOffset, classOffset) && tagOffset == TagOffsets(tags)
      ensures ok <==> forall i :: 0 <= i < |tags| ==> ElementAccepted(Resolved(), tags[i], tags[0])
    {
      ghost var e := Resolved();
      for i := 0 to |tags|
        invariant forall j :: 0 <= j < i ==> ElementAccepted(e, tags[j], tags[0])
      {
        SizeRecorded(tags, i);
        ok := CheckTag(tags[i]);
        if !ok { return; }
      }
      ok := true;
    }

    /** `resolve` followed by `set_base`: a union is generated from exactly when it is accepted. */
    method Resolve(base: nat) returns (ok: bool)
      requires base > 0
      modifies this
      ensures tagOffset == TagOffsets(tags)
      ensures ok <==> old(classes).Keys <= tagOffset.Keys && Accepted(tags, Resolved(), base)
    {
      ok := MakeClasses();
      if !ok { return; }
      ok := CheckTags();
      if !ok { return; }
      ok := forall w | w in tagOffset :: tagOffset[w] / base == classOffset / base;
    }
  }

  /** One line of the generated reader: the word and position of the field, and its class mask. */
  datatype Entry = Entry(index: nat, shift: nat, width: nat, classmask: nat)

  /** The substitutions for one width; `word_classmask` positions the mask in the tag's word. */
  function EntryFor(e: Encoding, base: nat, w: nat): Entry
    requires base > 0 && w in e.classes && w in e.tagOffset
  {
    Entry(e.tagOffset[w] / base, e.tagOffset[w] % base, w, Shl(e.classes[w], e.classOffset % base))
  }

  /** The reader generated for a union: one entry per width, narrowest first. */
  function Generate(e: Encoding, base: nat): (r: seq<Entry>)
    requires base > 0 && forall i :: 0 <= i < |e.widths| ==> e.widths[i] in e.classes && e.widths[i] in e.tagOffset
    ensures |r| == |e.widths| && forall i :: 0 <= i < |r| ==> r[i] == EntryFor(e, base, e.widths[i])
  {
    seq(|e.widths|, i requires 0 <= i < |e.widths| => EntryFor(e, base, e.widths[i]))
  }

  /** `(word >> shift) & mask` for the tag field of width `w`. */
  function ReadField(word: nat, shift: nat, w: nat): nat {
    And(Shr(word, shift), Pow2(w) - 1)
  }

  /** What the generated reader returns, from its `k`-th line on. */
  function ReadTag(reader: seq<Entry>, words: seq<nat>, k: nat): nat
    requires k < |reader| && forall i :: 0 <= i < |reader| ==> reader[i].index < |words|
    decreases |reader| - k
  {
    var r := reader[k];
    if k + 1 == |reader| || And(words[r.index], r.classmask) != r.classmask then
      ReadField(words[r.index], r.shift, r.width)
    else
      ReadTag(reader, words, k + 1)
  }

  /** Masks of narrower fields are contained in those of wider ones. */
  lemma {:induction false} MasksNest(e: Encoding, i: nat, j: nat)
    requires MasksAccepted(e) && i <= j < |e.widths|
    ensures Covers(e.classes[e.widths[j]], e.classes[e.widths[i]])
    decreases j
  {
    if i < j {
      MasksNest(e, i, j - 1);
      assert Covers(e.classes[e.widths[j]], e.classes[e.widths[j - 1]]);
    }
  }

  lemma {:induction false} FieldBit(word: nat, shift: nat, w: nat, i: nat)
    ensures Bit(ReadField(word, shift, w), i) == (i < w && Bit(word, i + shift))
  {
    BitAnd(Shr(word, shift), Pow2(w) - 1, i);
    BitShr(word, shift, i);
    BitOnes(w, i);
  }

  /** A class bit of a field, seen in the word, is the corresponding bit of the stored value. */
  lemma {:induction false} ClassBitIsValueBit(value: nat, classes: nat, word: nat, w: nat, offset: nat, co: nat,
                                              base: nat, b: nat)
    requires base > 0 && co <= offset && offset / base == co / base
    requires InField(classes, co, w, offset) && Bit(classes, b)
    requires ReadField(word, offset % base, w) == value
    ensures Bit(word, b + co % base) == Bit(Shl(value, offset - co), b)
  {
    var j := b + co - offset;
    SameWord(co, offset, base);
    FieldBit(word, offset % base, w, j);
    BitShl(value, offset - co, b);
  }

  lemma {:induction false} SameWord(a: nat, b: nat, base: nat)
    requires base > 0 && a / base == b / base
    ensures a - a % base == b - b % base
  {
    DivModSplit(a, base);
    DivModSplit(b, base);
  }

  /** In a word that holds `value` in the field, testing a class mask of the field on the word is
      testing it on the value. */
  lemma {:induction false} ClassTestOnWord(value: nat, mask: nat, classes: nat, word: nat, w: nat, offset: nat,
                                           co: nat, base: nat)
    requires base > 0 && co <= offset && offset / base == co / base
    requires InField(classes, co, w, offset) && Covers(classes, mask)
    requires ReadField(word, offset % base, w) == value
    ensures Covers(word, Shl(mask, co % base)) <==> Covers(Shl(value, offset - co), mask)
  {
    var s := co % base;
    if Covers(word, Shl(mask, s)) {
      forall b: nat | Bit(mask, b) ensures Bit(Shl(value, offset - co), b) {
        BitShl(mask, s, b + s);
        ClassBitIsValueBit(value, classes, word, w, offset, co, base, b);
      }
    }
    if Covers(Shl(value, offset - co), mask) {
      forall i: nat | Bit(Shl(mask, s), i) ensures Bit(word, i) {
        BitShl(mask, s, i);
        ClassBitIsValueBit(value, classes, word, w, offset, co, base, i - s);
      }
    }
  }

  /** The reader stops at the line whose mask is the first not covered. */
  lemma {:induction false} ReadsLine(reader: seq<Entry>, words: seq<nat>, k: nat, n: nat)
    requires k <= n < |reader| && forall i :: 0 <= i < |reader| ==> reader[i].index < |words|
    requires forall i :: k <= i < n ==> Covers(words[reader[i].index], reader[i].classmask)
    requires n + 1 == |reader| || !Covers(words[reader[n].index], reader[n].classmask)
    ensures ReadTag(reader, words, k) == ReadField(words[reader[n].index], reader[n].shift, reader[n].width)
    decreases n - k
  {
    CoversIff(words[reader[k].index], reader[k].classmask);
    if k < n { ReadsLine(reader, words, k + 1, n); }
  }

  /** On a word that holds an accepted tag, the mask of each class no wider than the tag's own is
      covered, except that of its own class when a wider one exists. */
  lemma {:induction false} ClassOfWord(tags: seq<Tag>, e: Encoding, base: nat, t: Tag, word: nat, k: nat, n: nat)
    requires Accepted(tags, e, base) && TagAccepted(e, t)
    requires ReadField(word, t.offset % base, t.size) == t.value
    requires k <= n < |e.widths| && e.widths[n] == t.size
    ensures k < n ==> Covers(word, EntryFor(e, base, e.widths[k]).classmask)
    ensures k == n && n + 1 < |e.widths| ==> !Covers(word, EntryFor(e, base, t.size).classmask)
  {
    MasksNest(e, k, n);
    ClassTestOnWord(t.value, e.classes[e.widths[k]], e.classes[t.size], word, t.size, t.offset, e.classOffset, base);
  }

  /** Every line of the generated reader looks at the same word. */
  lemma {:induction false} OneWord(tags: seq<Tag>, e: Encoding, base: nat, idx: nat)
    requires Accepted(tags, e, base) && idx == e.classOffset / base
    ensures forall i :: 0 <= i < |e.widths| ==> Generate(e, base)[i].index == idx
  {
    forall i | 0 <= i < |e.widths| ensures Generate(e, base)[i].index == idx {
      assert e.widths[i] in e.tagOffset;
    }
  }

  /** The generated reader stays within the words and returns `value`. */
  ghost predicate ReaderGives(e: Encoding, base: nat, words: seq<nat>, value: nat)
    requires MasksAccepted(e) && base > 0
  {
    && e.widths != [] && (forall i :: 0 <= i < |e.widths| ==> Generate(e, base)[i].index < |words|)
    && ReadTag(Generate(e, base), words, 0) == value
  }

  /** Any contents of the block outside the tag field: the reader returns the tag that is there. */
  lemma {:induction false} TagReaderExact(tags: seq<Tag>, e: Encoding, base: nat, t: Tag, words: seq<nat>, idx: nat)
    requires Accepted(tags, e, base) && t in tags
    requires idx == e.classOffset / base && idx < |words|
    requires ReadField(words[idx], t.offset % base, t.size) == t.value
    ensures ReaderGives(e, base, words, t.value)
  {
    OneWord(tags, e, base, idx);
    assert ElementAccepted(e, t, tags[0]);
    var n := WidthIndex(e, t.size);
    var reader := Generate(e, base);
    forall i | 0 <= i < n ensures Covers(words[idx], reader[i].classmask) {
      ClassOfWord(tags, e, base, t, words[idx], i, n);
    }
    ClassOfWord(tags, e, base, t, words[idx], n, n);
    ReadsLine(reader, words, 0, n);
  }

  lemma {:induction false} WidthIndex(e: Encoding, w: nat) returns (n: nat)
    requires MasksAccepted(e) && w in e.tagOffset
    ensures n < |e.widths| && e.widths[n] == w
  {
    assert w in e.widths;
    n :| n < |e.widths| && e.widths[n] == w;
  }

  /** The reader's expression returns the value that a field at the bottom of its value holds. */
  lemma {:induction false} ReadsHeld(word: nat, f: Field, b: Base, v: nat)
    requires b.width > 0 && !f.high && Holds(word, f, b, v) && forall i: nat :: Bit(v, i) ==> i < f.size
    ensures ReadField(word, Low(f, b), f.size) == v
  {
    var low := Low(f, b);
    forall i: nat ensures Bit(ReadField(word, low, f.size), i) == Bit(v, i) {
      FieldBit(word, low, f.size, i);
      assert i < f.size ==> InWord(f, b, i + low);
    }
    BitsExtensional(ReadField(word, low, f.size), v);
  }

  lemma {:induction false} NeverWritten(ups: seq<Update>, field: nat, v: nat)
    requires forall i :: 0 <= i < |ups| ==> ups[i].field != field
    ensures LastValue(ups, field, v) == v
  {
    if ups != [] { NeverWritten(ups[..|ups| - 1], field, v); }
  }

  /** The reader returns `tag` from the block of `count` words that the constructor makes of the values and the
      writers then change. */
  ghost predicate TagComesBack(e: Encoding, b: Base, count: nat, fields: seq<Field>, values: seq<nat>,
                               ups: seq<Update>, tag: nat)
    requires MasksAccepted(e) && b.width > 0
  {
    && BlockOk(fields, b) && |values| == |fields| && UpdatesOk(ups, fields, b)
    && WordsOk(New(fields, values, count, b), fields, b)
    && ReaderGives(e, b.width, After(New(fields, values, count, b), fields, ups, b), tag)
  }

  /** For every accepted union and element, every block declaration whose tag field is the element's, every value
      of the other fields and every run of their writers, the generated reader returns the element's tag. */
  lemma {:induction false} TagRoundTrip(tags: seq<Tag>, e: Encoding, b: Base, t: Tag, decls: seq<Decl>, order: seq<nat>,
                                        fields: seq<Field>, count: nat, values: seq<nat>, ups: seq<Update>, tag: nat)
    requires Accepted(tags, e, b.width) && t in tags && IsBlock(decls, b, order, fields, count)
    requires tag < |fields| && fields[tag] == Field(t.offset, t.size, t.high)
    requires |values| == |fields| && WordValues(values, b) && values[tag] == t.value
    requires UpdatesOk(ups, fields, b) && forall i :: 0 <= i < |ups| ==> ups[i].field != tag
    ensures TagComesBack(e, b, count, fields, values, ups, t.value)
  {
    var f := fields[tag];
    AcceptedOk(decls, b, order, fields, count);
    NewWordsOk(fields, values, count, b);
    NewHolds(fields, values, count, b, tag);
    RunHolds(New(fields, values, count, b), fields, ups, b, tag, t.value);
    NeverWritten(ups, tag, t.value);
    var words := After(New(fields, values, count, b), fields, ups, b);
    TagValueFits(tags, e, b.width, t);
    ReadsHeld(words[Index(f, b)], f, b, t.value);
    TagReaderExact(tags, e, b.width, t, words, Index(f, b));
  }

  lemma {:induction false} TagValueFits(tags: seq<Tag>, e: Encoding, base: nat, t: Tag)
    requires Accepted(tags, e, base) && t in tags
    ensures forall i: nat :: Bit(t.value, i) ==> i < t.size
    ensures !t.high && t.offset / base == e.classOffset / base
  {
    assert ElementAccepted(e, t, tags[0]);
    forall i: nat | Bit(t.value, i) ensures i < t.size {
      assert InField(t.value, t.offset, t.size, t.offset);
    }
  }
}
