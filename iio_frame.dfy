/** The layout of one IIO buffer frame as the IMU web server derives it: the
    channels ordered by scan index, each placed at the next offset aligned to
    its own size, and the `struct` format that decodes each one. */
module IioFrame {
  import opened Wrappers
  import opened IioType
  import opened Arith

  /** The seven channels the server reads, in the order it lists them. */
  const ChannelNames: seq<string> := ["ax", "ay", "az", "gx", "gy", "gz", "ts"]

  /** One channel of the frame: its name, scan index, storage width in bits,
      byte order and signedness. */
  datatype Entry = Entry(name: string, index: int, storagebits: int, endian: Endian, signed: bool)

  /** The byte size of a channel, as Python's floor division by 8 gives it. */
  function Size(e: Entry): int
  {
    e.storagebits / 8
  }

  // ---------------------------------------------------------------- ordering

  predicate SortedByIndex(s: seq<Entry>)
  {
    forall i, j :: 0 <= i < j < |s| ==> s[i].index <= s[j].index
  }

  /** The entries with one scan index, in their order. */
  function WithIndex(s: seq<Entry>, k: int): seq<Entry>
  {
    if |s| == 0 then []
    else (if s[0].index == k then [s[0]] else []) + WithIndex(s[1..], k)
  }

  /** `x` placed before the first entry whose index is not smaller. */
  function Insert(x: Entry, s: seq<Entry>): (r: seq<Entry>)
    ensures |r| == |s| + 1
    ensures r[0] == x || (|s| > 0 && r[0] == s[0])
  {
    if |s| == 0 || x.index <= s[0].index then [x] + s
    else [s[0]] + Insert(x, s[1..])
  }

  /** A stable sort by scan index, the guarantee Python's `list.sort` gives. */
  function SortByIndex(s: seq<Entry>): (r: seq<Entry>)
    ensures |r| == |s|
  {
    if |s| == 0 then [] else Insert(s[0], SortByIndex(s[1..]))
  }

  lemma {:induction false} InsertSorted(x: Entry, s: seq<Entry>)
    requires SortedByIndex(s)
    ensures SortedByIndex(Insert(x, s))
  {
    if |s| > 0 && x.index > s[0].index {
      InsertSorted(x, s[1..]);
      var r := Insert(x, s);
      var r' := Insert(x, s[1..]);
      assert r == [s[0]] + r';
      forall i, j | 0 <= i < j < |r|
        ensures r[i].index <= r[j].index
      {
        if i == 0 {
          InsertMembers(x, s[1..]);
          assert r[j] in multiset(r');
          assert r[j] == x || r[j] in s[1..];
        }
      }
    }
  }

  lemma {:induction false} InsertMembers(x: Entry, s: seq<Entry>)
    ensures multiset(Insert(x, s)) == multiset(s) + multiset{x}
  {
    if |s| > 0 && x.index > s[0].index {
      InsertMembers(x, s[1..]);
      assert s == [s[0]] + s[1..];
    }
  }

  /** Insertion keeps the order among entries of equal index: `x` lands ahead
      of every entry sharing its index. */
  lemma {:induction false} InsertStable(x: Entry, s: seq<Entry>, k: int)
    ensures WithIndex(Insert(x, s), k) == (if x.index == k then [x] else []) + WithIndex(s, k)
  {
    if |s| > 0 && x.index > s[0].index {
      InsertStable(x, s[1..], k);
      var r' := Insert(x, s[1..]);
      assert ([s[0]] + r')[1..] == r';
    } else {
      assert ([x] + s)[1..] == s;
    }
  }

  /** The frame order is ascending by scan index. */
  lemma {:induction false} SortIsSorted(s: seq<Entry>)
    ensures SortedByIndex(SortByIndex(s))
  {
    if |s| > 0 {
      SortIsSorted(s[1..]);
      InsertSorted(s[0], SortByIndex(s[1..]));
    }
  }

  /** The frame holds exactly the listed channels. */
  lemma {:induction false} SortIsPermutation(s: seq<Entry>)
    ensures multiset(SortByIndex(s)) == multiset(s)
  {
    if |s| > 0 {
      SortIsPermutation(s[1..]);
      InsertMembers(s[0], SortByIndex(s[1..]));
      HeadAndTail(s);
    }
  }

  /** A non-empty sequence's elements are its head's and its tail's. */
  lemma HeadAndTail<T>(s: seq<T>)
    requires |s| > 0
    ensures multiset(s) == multiset(s[1..]) + multiset{s[0]}
  {
    assert s == [s[0]] + s[1..];
  }

  /** Channels that share a scan index keep the order they were listed in. */
  lemma {:induction false} SortIsStable(s: seq<Entry>, k: int)
    ensures WithIndex(SortByIndex(s), k) == WithIndex(s, k)
  {
    if |s| > 0 {
      SortIsStable(s[1..], k);
      InsertStable(s[0], SortByIndex(s[1..]), k);
    }
  }

  // ---------------------------------------------------------------- offsets

  /** The offset a channel of `storagebits` bits starts at when the previous
      channel ended at `offset`: rounded up to a multiple of the channel's byte
      size when that size exceeds one byte. */
  function Place(offset: int, storagebits: int): int
  {
    var align := storagebits / 8;
    if align > 1 && offset % align != 0 then offset + (align - offset % align) else offset
  }

  /** The end offset after laying out `fields` in order from offset 0. */
  function EndOf(fields: seq<Entry>): int
  {
    if |fields| == 0 then 0
    else
      var last := fields[|fields| - 1];
      Place(EndOf(fields[..|fields| - 1]), last.storagebits) + Size(last)
  }

  /** The offset of field `i`. */
  function OffsetOf(fields: seq<Entry>, i: nat): int
    requires i < |fields|
  {
    Place(EndOf(fields[..i]), fields[i].storagebits)
  }

  /** The start is the first aligned offset at or after the previous end:
      never earlier, aligned, and with less than one alignment unit of padding. */
  lemma PlaceIsAligned(offset: int, storagebits: int)
    ensures var align := storagebits / 8;
            var p := Place(offset, storagebits);
            offset <= p &&
            (align > 1 ==> p % align == 0 && p - offset < align) &&
            (align <= 1 ==> p == offset)
  {
    var align := storagebits / 8;
    if align > 1 && offset % align != 0 {
      var q := offset / align;
      var p := offset + (align - offset % align);
      assert p == (q + 1) * align;
      ExactQuotient(p, align, q + 1);
    } else if align > 1 {
      ExactQuotient(offset, align, offset / align);
    }
  }

  /** Each field starts on a multiple of its own byte size, no earlier than
      where the previous field ends. */
  lemma OffsetAligned(fields: seq<Entry>, i: nat)
    requires i < |fields|
    ensures Size(fields[i]) > 1 ==> OffsetOf(fields, i) % Size(fields[i]) == 0
    ensures OffsetOf(fields, i) >= EndOf(fields[..i])
    ensures i > 0 ==> EndOf(fields[..i]) == OffsetOf(fields, i - 1) + Size(fields[i - 1])
  {
    PlaceIsAligned(EndOf(fields[..i]), fields[i].storagebits);
    if i > 0 {
      assert fields[..i][..i - 1] == fields[..i - 1];
    }
  }

  /** The frame size is where the last field ends. */
  lemma FrameEndsAfterLast(fields: seq<Entry>)
    requires |fields| > 0
    ensures EndOf(fields) == OffsetOf(fields, |fields| - 1) + Size(fields[|fields| - 1])
  {
    assert fields[..|fields| - 1] == fields[..|fields| - 1];
  }

  /** With no negative widths, ends only grow as fields are added. */
  lemma {:induction false} EndGrows(fields: seq<Entry>, a: nat, b: nat)
    requires a <= b <= |fields|
    requires forall i :: 0 <= i < |fields| ==> fields[i].storagebits >= 0
    ensures EndOf(fields[..a]) <= EndOf(fields[..b])
    decreases b - a
  {
    if a < b {
      EndGrows(fields, a, b - 1);
      var pre := fields[..b];
      assert pre[..b - 1] == fields[..b - 1];
      PlaceIsAligned(EndOf(fields[..b - 1]), fields[b - 1].storagebits);
    }
  }

  /** With no negative widths, fields never overlap: a field ends before any
      later field starts. */
  lemma NoOverlap(fields: seq<Entry>, i: nat, j: nat)
    requires i < j < |fields|
    requires forall k :: 0 <= k < |fields| ==> fields[k].storagebits >= 0
    ensures OffsetOf(fields, i) + Size(fields[i]) <= OffsetOf(fields, j)
  {
    OffsetAligned(fields, i + 1);
    EndGrows(fields, i + 1, j);
    OffsetAligned(fields, j);
  }

  predicate DistinctNames(fields: seq<Entry>)
  {
    forall i, j :: 0 <= i < j < |fields| ==> fields[i].name != fields[j].name
  }

  /** The layout loop: walk the fields in order, pad to alignment (`Place`),
      record each offset by name, advance by the field's size. */
  method Layout(fields: seq<Entry>) returns (offsets: map<string, int>, frameSize: int)
    requires DistinctNames(fields)
    ensures offsets.Keys == Names(fields)
    ensures forall i :: 0 <= i < |fields| ==> offsets[fields[i].name] == OffsetOf(fields, i)
    ensures frameSize == EndOf(fields)
  {
    var offset := 0;
    offsets := map[];
    var k := 0;
    while k < |fields|
      invariant 0 <= k <= |fields|
      invariant offset == EndOf(fields[..k])
      invariant LaidOut(fields, k, offsets)
    {
      LayoutStep(fields, k);
      LayoutAdvance(fields, k, offsets);
      offset := Place(offset, fields[k].storagebits);
      offsets := offsets[fields[k].name := offset];
      offset := offset + fields[k].storagebits / 8;
      k := k + 1;
    }
    assert fields[..k] == fields;
    frameSize := offset;
  }

  /** The first k fields, and no other name, are recorded at their offsets. */
  predicate LaidOut(fields: seq<Entry>, k: nat, offsets: map<string, int>)
    requires k <= |fields|
  {
    offsets.Keys == Names(fields[..k]) &&
    forall i :: 0 <= i < k ==> fields[i].name in offsets && offsets[fields[i].name] == OffsetOf(fields, i)
  }

  /** Recording field k at its offset extends the recorded prefix by one. */
  lemma LayoutAdvance(fields: seq<Entry>, k: nat, offsets: map<string, int>)
    requires DistinctNames(fields) && k < |fields| && LaidOut(fields, k, offsets)
    ensures LaidOut(fields, k + 1, offsets[fields[k].name := OffsetOf(fields, k)])
  {
    LayoutStep(fields, k);
    var o := offsets[fields[k].name := OffsetOf(fields, k)];
    forall i | 0 <= i < k + 1
      ensures fields[i].name in o && o[fields[i].name] == OffsetOf(fields, i)
    {
      if i < k {
        assert fields[i].name != fields[k].name;
      }
    }
  }

  /** The names of the fields. */
  function Names(fields: seq<Entry>): set<string>
  {
    set i | 0 <= i < |fields| :: fields[i].name
  }

  /** One turn of the layout loop: the next field starts at its place after
      the current end, and the end moves past it. */
  lemma LayoutStep(fields: seq<Entry>, k: nat)
    requires k < |fields|
    ensures OffsetOf(fields, k) == Place(EndOf(fields[..k]), fields[k].storagebits)
    ensures EndOf(fields[..k + 1]) == OffsetOf(fields, k) + Size(fields[k])
    ensures Names(fields[..k + 1]) == Names(fields[..k]) + {fields[k].name}
  {
    assert fields[..k + 1][..k] == fields[..k];
    var pre := fields[..k + 1];
    forall n | n in Names(pre)
      ensures n in Names(fields[..k]) + {fields[k].name}
    {
      var i :| 0 <= i < k + 1 && pre[i].name == n;
      if i < k {
        assert fields[..k][i] == pre[i];
      }
    }
    forall n | n in Names(fields[..k]) + {fields[k].name}
      ensures n in Names(pre)
    {
      if n == fields[k].name {
        assert pre[k] == fields[k];
      } else {
        var i :| 0 <= i < k && fields[..k][i].name == n;
        assert pre[i] == fields[i];
      }
    }
  }

  // ---------------------------------------------------------------- decoding

  /** The byte size Python's `struct` gives each integer format letter. */
  function StructSize(code: char): int
  {
    match code
    case 'h' => 2 case 'H' => 2
    case 'i' => 4 case 'I' => 4
    case 'q' => 8 case 'Q' => 8
    case _ => 0
  }

  /** The `struct` format for one channel: byte-order mark, then a letter whose
      case gives the signedness. None stands for the unsupported-width error. */
  function UnpackFormat(storagebits: int, endian: Endian, signed: bool): (r: Option<string>)
  {
    var mark := if endian == Little then "<" else ">";
    if storagebits == 16 then Some(mark + (if signed then "h" else "H"))
    else if storagebits == 32 then Some(mark + (if signed then "i" else "I"))
    else if storagebits == 64 then Some(mark + (if signed then "q" else "Q"))
    else None
  }

  /** Only 16-, 32- and 64-bit channels decode; the format reads exactly the
      channel's bytes, in its byte order, signed exactly when the channel is. */
  lemma UnpackFormatMeaning(storagebits: int, endian: Endian, signed: bool)
    ensures var r := UnpackFormat(storagebits, endian, signed);
            (r.Some? <==> storagebits == 16 || storagebits == 32 || storagebits == 64) &&
            (r.Some? ==>
               |r.value| == 2 &&
               (r.value[0] == '<' <==> endian == Little) && (r.value[0] == '>' <==> endian == Big) &&
               ('a' <= r.value[1] <= 'z' <==> signed) &&
               StructSize(r.value[1]) == storagebits / 8)
  {
  }

  // ---------------------------------------------------------------- the whole layout

  datatype Frame = Frame(fields: seq<Entry>, offsets: map<string, int>, frameSize: int)

  /** Every listed channel has an entry in both tables: the index read back
      (None when its file is missing or is not a number) and the type text. */
  predicate Known<T>(names: seq<string>, index: map<string, Option<int>>, types: map<string, T>)
  {
    forall i :: 0 <= i < |names| ==> names[i] in index && names[i] in types
  }

  /** A channel can be placed: its index was read and its type text parsed. */
  predicate Usable(index: Option<int>, t: Option<ScanType>)
  {
    index.Some? && t.Some?
  }

  /** The channels in the listed order, with their scan indices and parsed
      types; None if any type text does not parse or any index is missing. */
  function Entries(names: seq<string>, index: map<string, Option<int>>, types: map<string, Option<ScanType>>): (r: Option<seq<Entry>>)
    requires Known(names, index, types)
    ensures r.Some? ==> |r.value| == |names|
    ensures r.Some? ==> forall i :: 0 <= i < |names| ==> r.value[i].name == names[i]
  {
    if |names| == 0 then Some([])
    else
      var init := names[..|names| - 1];
      assert forall i :: 0 <= i < |init| ==> init[i] == names[i];
      var rest := Entries(init, index, types);
      var n := names[|names| - 1];
      var t := types[n];
      if rest.None? || t.None? || index[n].None? then None
      else
        Some(rest.value + [Entry(n, index[n].value, t.value.storagebits, t.value.endian, t.value.signed)])
  }

  /** The list is built exactly when every channel is usable, and then each
      entry carries the index read for its channel. */
  lemma {:induction false} EntriesSucceed(names: seq<string>, index: map<string, Option<int>>, types: map<string, Option<ScanType>>)
    requires Known(names, index, types)
    ensures var r := Entries(names, index, types);
            r.Some? <==> forall i :: 0 <= i < |names| ==> Usable(index[names[i]], types[names[i]])
    ensures var r := Entries(names, index, types);
            r.Some? ==> forall i :: 0 <= i < |names| ==> Some(r.value[i].index) == index[names[i]]
    decreases |names|
  {
    if |names| > 0 {
      var init := names[..|names| - 1];
      assert forall i :: 0 <= i < |init| ==> init[i] == names[i];
      EntriesSucceed(init, index, types);
      var r := Entries(names, index, types);
      var rest := Entries(init, index, types);
      if r.Some? {
        assert forall i :: 0 <= i < |init| ==> r.value[i] == rest.value[i];
      }
    }
  }

  /** One more name: the list grows by that channel, or fails with it. */
  lemma EntriesStep(names: seq<string>, index: map<string, Option<int>>, types: map<string, Option<ScanType>>, k: nat)
    requires k < |names| && Known(names, index, types)
    ensures Known(names[..k], index, types) && Known(names[..k + 1], index, types)
    ensures var rest := Entries(names[..k], index, types);
            var t := types[names[k]];
            Entries(names[..k + 1], index, types) ==
              if rest.None? || t.None? || index[names[k]].None? then None
              else Some(rest.value + [Entry(names[k], index[names[k]].value, t.value.storagebits, t.value.endian, t.value.signed)])
  {
    assert names[..k + 1][..k] == names[..k];
  }

  /** The gathering loop: one item per name, in the listed order, stopping at
      the first type text that does not parse. */
  method GatherEntries(names: seq<string>, index: map<string, Option<int>>, types: map<string, Option<ScanType>>) returns (r: Option<seq<Entry>>)
    requires Known(names, index, types)
    ensures r == Entries(names, index, types)
  {
    var items: seq<Entry> := [];
    var k := 0;
    while k < |names|
      invariant 0 <= k <= |names|
      invariant Known(names[..k], index, types)
      invariant Entries(names[..k], index, types) == Some(items)
    {
      var name := names[k];
      var t := types[name];
      EntriesStep(names, index, types, k);
      if t.None? || index[name].None? {
        EntriesStopAtFailure(names, index, types, k + 1);
        return None;
      }
      items := items + [Entry(name, index[name].value, t.value.storagebits, t.value.endian, t.value.signed)];
      k := k + 1;
    }
    assert names[..k] == names;
    r := Some(items);
  }

  /** `tp` in the builder: every channel's type text run through the parser. */
  function ParseTypes(typeText: map<string, string>): (types: map<string, Option<ScanType>>)
    ensures types.Keys == typeText.Keys
  {
    map n | n in typeText :: ParseScanType(typeText[n])
  }

  /** The seven channels gather exactly when every index was read and every
      type text parses. */
  lemma ChannelsGather(index: map<string, Option<int>>, typeText: map<string, string>)
    requires Known(ChannelNames, index, typeText)
    ensures Known(ChannelNames, index, ParseTypes(typeText))
    ensures Entries(ChannelNames, index, ParseTypes(typeText)).None? <==>
      exists i :: 0 <= i < |ChannelNames| &&
        (index[ChannelNames[i]].None? || ParseScanType(typeText[ChannelNames[i]]).None?)
  {
    var types := ParseTypes(typeText);
    EntriesSucceed(ChannelNames, index, types);
    assert forall i :: 0 <= i < |ChannelNames| ==>
      types[ChannelNames[i]] == ParseScanType(typeText[ChannelNames[i]]);
  }

  /** Building the parser: gather the seven channels' parsed types, order them
      by scan index and lay them out. A type text that does not parse, or an
      index that could not be read, makes the build fail. */
  method BuildFrameParser(index: map<string, Option<int>>, typeText: map<string, string>) returns (r: Option<Frame>)
    requires Known(ChannelNames, index, typeText)
    ensures var types := ParseTypes(typeText);
      r.None? <==>
        exists i :: 0 <= i < |ChannelNames| &&
          (index[ChannelNames[i]].None? || ParseScanType(typeText[ChannelNames[i]]).None?)
    ensures var types := ParseTypes(typeText);
      Known(ChannelNames, index, types) &&
      (r.None? <==> Entries(ChannelNames, index, types).None?)
    ensures r.Some? ==>
              var types := ParseTypes(typeText);
              Known(ChannelNames, index, types) &&
              var fields := SortByIndex(Entries(ChannelNames, index, types).value);
              r.value.fields == fields && r.value.frameSize == EndOf(fields) &&
              r.value.offsets.Keys == Names(fields) &&
              (forall i :: 0 <= i < |fields| ==> r.value.offsets[fields[i].name] == OffsetOf(fields, i))
  {
    var types := ParseTypes(typeText);
    ChannelsGather(index, typeText);
    var gathered := GatherEntries(ChannelNames, index, types);
    if gathered.None? {
      return None;
    }
    var items := gathered.value;
    var fields := SortByIndex(items);
    SortedNamesDistinct(items);
    var offsets, frameSize := Layout(fields);
    r := Some(Frame(fields, offsets, frameSize));
  }

  /** A failing prefix makes the whole list fail. */
  lemma {:induction false} EntriesStopAtFailure(names: seq<string>, index: map<string, Option<int>>, types: map<string, Option<ScanType>>, k: nat)
    requires k <= |names| && Known(names, index, types)
    requires Known(names[..k], index, types) && Entries(names[..k], index, types).None?
    ensures Entries(names, index, types).None?
    decreases |names| - k
  {
    if k < |names| {
      EntriesStep(names, index, types, k);
      EntriesStopAtFailure(names, index, types, k + 1);
    } else {
      assert names[..k] == names;
    }
  }

  /** Inserting an entry whose name is new keeps the names distinct. */
  lemma {:induction false} InsertKeepsDistinct(x: Entry, s: seq<Entry>)
    requires DistinctNames(s) && forall i :: 0 <= i < |s| ==> s[i].name != x.name
    ensures DistinctNames(Insert(x, s))
  {
    if |s| > 0 && x.index > s[0].index {
      var r' := Insert(x, s[1..]);
      InsertKeepsDistinct(x, s[1..]);
      InsertMembers(x, s[1..]);
      forall j | 0 <= j < |r'|
        ensures r'[j].name != s[0].name
      {
        assert r'[j] in multiset(r');
        assert r'[j] == x || r'[j] in s[1..];
      }
      assert Insert(x, s) == [s[0]] + r';
    }
  }

  /** Sorting keeps the names distinct. */
  lemma {:induction false} SortKeepsDistinct(s: seq<Entry>)
    requires DistinctNames(s)
    ensures DistinctNames(SortByIndex(s))
  {
    if |s| > 0 {
      var r := SortByIndex(s[1..]);
      SortKeepsDistinct(s[1..]);
      SortIsPermutation(s[1..]);
      forall j | 0 <= j < |r|
        ensures r[j].name != s[0].name
      {
        assert r[j] in multiset(s[1..]);
        var i :| 0 <= i < |s[1..]| && s[1..][i] == r[j];
        assert s[1 + i] == r[j];
      }
      InsertKeepsDistinct(s[0], r);
    }
  }

  /** The seven channel names are different. */
  lemma ChannelNamesDistinct()
    ensures forall i, j :: 0 <= i < j < |ChannelNames| ==> ChannelNames[i] != ChannelNames[j]
  {
  }

  /** The seven entries carry seven different names, and sorting keeps that. */
  lemma SortedNamesDistinct(items: seq<Entry>)
    requires |items| == |ChannelNames| && forall i :: 0 <= i < |items| ==> items[i].name == ChannelNames[i]
    ensures DistinctNames(SortByIndex(items))
  {
    ChannelNamesDistinct();
    SortKeepsDistinct(items);
  }

  /** The usual BMI270 frame: six 16-bit axes at offsets 0 to 10, then the
      64-bit timestamp padded to offset 16, 24 bytes in all. */
  lemma Bmi270Frame()
    ensures var fields := [Entry("ax", 0, 16, Little, true), Entry("ay", 1, 16, Little, true),
                           Entry("az", 2, 16, Little, true), Entry("gx", 3, 16, Little, true),
                           Entry("gy", 4, 16, Little, true), Entry("gz", 5, 16, Little, true),
                           Entry("ts", 6, 64, Little, true)];
            OffsetOf(fields, 5) == 10 && OffsetOf(fields, 6) == 16 && EndOf(fields) == 24
  {
    var fields := [Entry("ax", 0, 16, Little, true), Entry("ay", 1, 16, Little, true),
                   Entry("az", 2, 16, Little, true), Entry("gx", 3, 16, Little, true),
                   Entry("gy", 4, 16, Little, true), Entry("gz", 5, 16, Little, true),
                   Entry("ts", 6, 64, Little, true)];
    assert EndOf(fields[..1]) == 2 by { assert fields[..1][..0] == []; }
    assert EndOf(fields[..2]) == 4 by { assert fields[..2][..1] == fields[..1]; }
    assert EndOf(fields[..3]) == 6 by { assert fields[..3][..2] == fields[..2]; }
    assert EndOf(fields[..4]) == 8 by { assert fields[..4][..3] == fields[..3]; }
    assert EndOf(fields[..5]) == 10 by { assert fields[..5][..4] == fields[..4]; }
    assert EndOf(fields[..6]) == 12 by { assert fields[..6][..5] == fields[..5]; }
    assert EndOf(fields) == 24 by { assert fields[..6] == fields[..6]; }
  }
}
