/**
  The three WebAssembly module walkers of the build scripts (WebAssembly Core
  Specification, sections 5.5.2 and 5.5.10).

  The reference grammar first splits a module into sections that tile it and
  then reads each export section's payload on its own.  The walkers do both in
  one pass over the whole file, with bounds checks at different places.
*/
module WasmModule {
  import opened Bits
  import opened Common
  import opened Leb128

  const HEADER: Bytes := [0x00, 0x61, 0x73, 0x6d, 0x01, 0x00, 0x00, 0x00]
  const LINKING: Bytes := [0x6c, 0x69, 0x6e, 0x6b, 0x69, 0x6e, 0x67]

  /** The bytes of an ASCII text. */
  function Ascii(text: string): Bytes
    requires forall i :: 0 <= i < |text| ==> text[i] < 128 as char
  {
    seq(|text|, i requires 0 <= i < |text| => text[i] as int as byte)
  }

  datatype Section = Section(id: byte, payload: Bytes)
  datatype Export<+N> = Export(name: N, kind: byte, index: nat)

  /** What a scan found, and the byte length of the longest integer it read. */
  datatype Scan<+T> = Scan(items: seq<T>, widest: nat)

  function Then<T>(first: Option<Scan<T>>, rest: Option<Scan<T>>, width: nat): Option<Scan<T>> {
    if first.Some? && rest.Some?
    then Some(Scan(first.value.items + rest.value.items, Max(width, Max(first.value.widest, rest.value.widest))))
    else None
  }

  function Items<T>(s: Option<Scan<T>>): Result<seq<T>> {
    if s.Some? then Ok(s.value.items) else Rejected
  }

  datatype SectionRead = BadSection | Found(section: Section, next: nat, width: nat)

  /** One section: an id byte, a size, and that many bytes. */
  function SectionAt(data: Bytes, offset: nat, limit: nat): (r: SectionRead)
    requires offset < |data|
    ensures r.Found? ==> offset < r.next <= |data|
  {
    match ReadAt(data, offset + 1, limit)
    case Malformed => BadSection
    case Read(size, start) =>
      if start + size > |data| then BadSection
      else Found(Section(data[offset], data[start..start + size]), start + size, start - (offset + 1))
  }

  /** The sections from `offset` to the last byte; integers take at most `limit` bytes. */
  function Sections(data: Bytes, offset: nat, limit: nat): Option<Scan<Section>>
    decreases |data| - offset
  {
    if offset >= |data| then Some(Scan([], 0))
    else match SectionAt(data, offset, limit)
         case BadSection => None
         case Found(s, next, width) => Then(Some(Scan([s], 0)), Sections(data, next, limit), width)
  }

  datatype EntryRead<+N> = BadEntry | Entry(entry: Export<N>, next: nat, width: nat)

  /** One export entry: a sized name, a kind byte, an index. */
  function EntryAt<N>(payload: Bytes, at: nat, limit: nat, decode: Bytes -> Option<N>): EntryRead<N> {
    match ReadAt(payload, at, limit)
    case Malformed => BadEntry
    case Read(size, start) =>
      if start + size >= |payload| then BadEntry
      else match decode(payload[start..start + size])
           case None => BadEntry
           case Some(name) =>
             match ReadAt(payload, start + size + 1, limit)
             case Malformed => BadEntry
             case Read(index, next) =>
               Entry(Export(name, payload[start + size], index), next, Max(start - at, next - (start + size + 1)))
  }

  /** Exactly `count` export entries filling the payload from `at` to its end. */
  function Entries<N>(payload: Bytes, at: nat, count: nat, limit: nat,
                      decode: Bytes -> Option<N>): Option<Scan<Export<N>>>
    decreases count
  {
    if count == 0 then if at == |payload| then Some(Scan([], 0)) else None
    else match EntryAt(payload, at, limit, decode)
         case BadEntry => None
         case Entry(entry, next, width) =>
           Then(Some(Scan([entry], width)), Entries(payload, next, count - 1, limit, decode), 0)
  }

  function ExportSection<N>(payload: Bytes, limit: nat, decode: Bytes -> Option<N>): Option<Scan<Export<N>>> {
    match ReadAt(payload, 0, limit)
    case Malformed => None
    case Read(count, at) => Then(Some(Scan([], at)), Entries(payload, at, count, limit, decode), 0)
  }

  function SectionExports<N>(s: Section, limit: nat, decode: Bytes -> Option<N>): Option<Scan<Export<N>>> {
    if s.id == 7 then ExportSection(s.payload, limit, decode) else Some(Scan([], 0))
  }

  function Collect<N>(ss: seq<Section>, limit: nat, decode: Bytes -> Option<N>): Option<Scan<Export<N>>> {
    if ss == [] then Some(Scan([], 0))
    else Then(SectionExports(ss[0], limit, decode), Collect(ss[1..], limit, decode), 0)
  }

  function ExportsFrom<N>(data: Bytes, offset: nat, limit: nat, decode: Bytes -> Option<N>): Option<Scan<Export<N>>> {
    match Sections(data, offset, limit)
    case None => None
    case Some(found) => Then(Some(Scan([], found.widest)), Collect(found.items, limit, decode), 0)
  }

  predicate HasHeader(data: Bytes) { HEADER <= data }

  lemma HeaderParts(data: Bytes)
    requires |data| >= 8
    ensures HasHeader(data) <==> data[..4] == HEADER[..4] && data[4..8] == HEADER[4..8]
  {
    assert data[..8] == data[..4] + data[4..8];
    assert HEADER == HEADER[..4] + HEADER[4..8];
    assert HasHeader(data) <==> data[..8] == HEADER;
    assert data[..4] == data[..8][..4] && data[4..8] == data[..8][4..8];
  }

  /** Reference: every export of the module, in file order. */
  function ModuleExports<N>(data: Bytes, limit: nat, decode: Bytes -> Option<N>): Option<Scan<Export<N>>> {
    if HasHeader(data) then ExportsFrom(data, 8, limit, decode) else None
  }

  // ---- The section loop shared by both export walkers ----

  /** Consuming one section moves its exports to the front of the rest. */
  lemma SectionStep<N>(data: Bytes, offset: nat, limit: nat, decode: Bytes -> Option<N>)
    requires offset < |data|
    ensures match SectionAt(data, offset, limit)
            case BadSection => ExportsFrom(data, offset, limit, decode).None?
            case Found(s, next, _) =>
              Items(ExportsFrom(data, offset, limit, decode)) ==
              Prepend(Items(SectionExports(s, limit, decode)), Items(ExportsFrom(data, next, limit, decode)))
  {
    match SectionAt(data, offset, limit)
    case BadSection =>
    case Found(s, next, _) =>
      var rest := Sections(data, next, limit);
      if rest.Some? {
        CollectStep(s, rest.value.items, limit, decode);
      }
  }

  lemma SectionsEnd<N>(data: Bytes, limit: nat, decode: Bytes -> Option<N>)
    ensures Items(ExportsFrom(data, |data|, limit, decode)) == Ok([])
  {
    var nothing: seq<Export<N>> := [];
    assert nothing + nothing == nothing;
  }

  lemma CollectStep<N>(s: Section, rest: seq<Section>, limit: nat, decode: Bytes -> Option<N>)
    ensures Collect([s] + rest, limit, decode)
            == Then(SectionExports(s, limit, decode), Collect(rest, limit, decode), 0)
    ensures Items(Then(Some(Scan([], 0)), Collect(rest, limit, decode), 0)) == Items(Collect(rest, limit, decode))
    ensures forall w: nat ::
              Items(Then(Some(Scan([], w)), Collect([s] + rest, limit, decode), 0))
              == Items(Collect([s] + rest, limit, decode))
    ensures forall w: nat ::
              Items(Then(Some(Scan([], w)), Collect(rest, limit, decode), 0)) == Items(Collect(rest, limit, decode))
  {
    assert ([s] + rest)[1..] == rest;
    PrependNothing(Items(Collect([s] + rest, limit, decode)));
    PrependNothing(Items(Collect(rest, limit, decode)));
  }

  /** scripts/build.py: bounds each name by the end of its section and checks
      the section's last byte at the end. */
  method WasmExports<N>(data: Bytes, decode: Bytes -> Option<N>) returns (r: Result<seq<Export<N>>>)
    ensures r == Items(ModuleExports(data, 10, decode))
  {
    hide Sections, Collect, ExportSection, ReadAt;
    if |data| < 8 {
      return Rejected;
    }
    HeaderParts(data);
    if data[..4] != HEADER[..4] || data[4..8] != HEADER[4..8] {
      return Rejected;
    }
    var offset: nat, exports := 8, [];
    PrependNothing(Items(ExportsFrom(data, 8, 10, decode)));
    while offset < |data|
      invariant offset <= |data|
      invariant Items(ModuleExports(data, 10, decode))
                == Prepend(Ok(exports), Items(ExportsFrom(data, offset, 10, decode)))
      decreases |data| - offset
    {
      SectionStep(data, offset, 10, decode);
      var section := data[offset];
      var size := Uleb(data, offset + 1);
      if size.Malformed? || size.next + size.value > |data| {
        return Rejected;
      }
      var end := size.next + size.value;
      ghost var payload := data[size.next..end];
      ghost var rest := Items(ExportsFrom(data, end, 10, decode));
      if section == 7 {
        var found := ExportSectionWithin(data, size.next, end, decode);
        if found.Rejected? {
          return Rejected;
        }
        PrependAssociative(exports, found.value, rest);
        exports := exports + found.value;
      } else {
        PrependAssociative(exports, [], rest);
        assert exports + [] == exports;
      }
      offset := end;
    }
    SectionsEnd(data, 10, decode);
    assert exports + [] == exports;
    return Ok(exports);
  }

  /** What reading one entry at `cursor` of the file must report about the
      payload that starts at `start`: reads may run past its end, but then the
      entry is not one of the payload's. */
  ghost predicate EntryReported<N>(payload: Bytes, start: nat, cursor: nat, limit: nat, decode: Bytes -> Option<N>,
                                   r: Result<Export<N>>, next: nat)
    requires start <= cursor
  {
    if cursor > start + |payload| then r.Rejected?
    else match EntryAt(payload, cursor - start, limit, decode)
         case BadEntry => r.Rejected? || next > start + |payload|
         case Entry(entry, after, _) => r == Ok(entry) && next == start + after
  }

  /** What reading a sized name at `from` of the file must give. */
  ghost predicate NameRead<N>(data: Bytes, from: nat, decode: Bytes -> Option<N>, name: Option<N>, next: nat) {
    match ReadAt(data, from, 5)
    case Malformed => name == None
    case Read(size, start) =>
      if start + size > |data| then name == None
      else name == decode(data[start..start + size]) && (name.Some? ==> next == start + size)
  }

  lemma NoEntry<N>(data: Bytes, start: nat, end: nat, from: nat, decode: Bytes -> Option<N>, name: Option<N>, at: nat)
    requires start <= end <= |data| && start <= from <= |data| && NameRead(data, from, decode, name, at)
    requires name.None? || at >= end
    ensures forall next :: EntryReported(data[start..end], start, from, 5, decode, Rejected, next)
  {
    hide ReadAt;
    ReadSlice(data, start, end, from, 5);
    var size := ReadAt(data, from, 5);
    if size.Read? && size.next + size.value <= end {
      SliceOfSlice(data, start, end, size.next, size.next + size.value);
    }
  }

  lemma OneEntry<N>(data: Bytes, start: nat, end: nat, from: nat, decode: Bytes -> Option<N>, name: Option<N>, at: nat,
                    index: Option<nat>, next: nat)
    requires start <= end <= |data| && start <= from <= |data| && NameRead(data, from, decode, name, at)
    requires name.Some? && start <= at < end
    requires match ReadAt(data, at + 1, 5)
             case Malformed => index == None
             case Read(v, after) => index == Some(v) && next == after
    ensures EntryReported(data[start..end], start, from, 5, decode,
                          if index.None? then Rejected else Ok(Export(name.value, data[at], index.value)), next)
  {
    hide ReadAt, EntryAt;
    ReadSlice(data, start, end, from, 5);
    ReadSlice(data, start, end, at + 1, 5);
    var size := ReadAt(data, from, 5);
    SliceOfSlice(data, start, end, size.next, size.next + size.value);
    NamedEntry(data[start..end], from - start, 5, decode);
  }

  /** An entry whose name can be read. */
  lemma NamedEntry<N>(payload: Bytes, at: nat, limit: nat, decode: Bytes -> Option<N>)
    requires var size := ReadAt(payload, at, limit);
             && size.Read? && size.next + size.value < |payload|
             && decode(payload[size.next..size.next + size.value]).Some?
    ensures var size := ReadAt(payload, at, limit);
            var kind := size.next + size.value;
            match ReadAt(payload, kind + 1, limit)
            case Malformed => EntryAt(payload, at, limit, decode) == BadEntry
            case Read(index, next) =>
              && EntryAt(payload, at, limit, decode).Entry? && EntryAt(payload, at, limit, decode).next == next
              && EntryAt(payload, at, limit, decode).entry
                 == Export(decode(payload[size.next..kind]).value, payload[kind], index)
  {
    hide ReadAt;
  }

  method EntryWithin<N>(data: Bytes, ghost start: nat, end: nat, at: nat, decode: Bytes -> Option<N>)
    returns (r: Result<Export<N>>, cursor: nat)
    requires start <= end <= |data| && start <= at <= |data|
    ensures EntryReported(data[start..end], start, at, 10, decode, r, cursor)
    ensures r.Ok? ==> at <= cursor <= |data|
  {
    hide ReadAt;
    ghost var payload := data[start..end];
    ReadSlice(data, start, end, at, 10);
    cursor := at;
    var nameSize := Uleb(data, cursor);
    if nameSize.Malformed? {
      return Rejected, cursor;
    }
    cursor := nameSize.next;
    var nameEnd := cursor + nameSize.value;
    if nameEnd > end {
      return Rejected, cursor;
    }
    SliceOfSlice(data, start, end, cursor, nameEnd);
    var name := decode(data[cursor..nameEnd]);
    if name.None? {
      return Rejected, cursor;
    }
    cursor := nameEnd;
    if cursor >= |data| {
      return Rejected, cursor;
    }
    var kind := data[cursor];
    cursor := cursor + 1;
    ReadSlice(data, start, end, cursor, 10);
    var index := Uleb(data, cursor);
    if index.Malformed? {
      return Rejected, cursor;
    }
    cursor := index.next;
    return Ok(Export(name.value, kind, index.value)), cursor;
  }

  /** The export branch of the build script's walker. */
  method ExportSectionWithin<N>(data: Bytes, start: nat, end: nat, decode: Bytes -> Option<N>)
    returns (r: Result<seq<Export<N>>>)
    requires start <= end <= |data|
    ensures r == Items(ExportSection(data[start..end], 10, decode))
  {
    hide EntryAt, Entries, EntryReported, Progress;
    ghost var payload := data[start..end];
    EntriesStart(data, start, end, 10, decode);
    var count := Uleb(data, start);
    if count.Malformed? {
      return Rejected;
    }
    var cursor, exports, i := count.next, [], 0;
    while i < count.value
      invariant start <= cursor <= |data| && i <= count.value
      invariant Progress(payload, start, cursor, count.value - i, 10, decode, exports)
    {
      var entry, next := EntryWithin(data, start, end, cursor, decode);
      EntriesStep(payload, start, cursor, count.value - i, 10, decode, exports, entry, next);
      if entry.Rejected? {
        return Rejected;
      }
      cursor := next;
      exports := exports + [entry.value];
      i := i + 1;
    }
    EntriesDone(payload, start, cursor, 10, decode, exports);
    if cursor != end {
      return Rejected;
    }
    return Ok(exports);
  }

  /** `done` are the entries before `cursor`; `left` more must fill the payload. */
  ghost predicate Progress<N>(payload: Bytes, start: nat, cursor: nat, left: nat, limit: nat,
                              decode: Bytes -> Option<N>, done: seq<Export<N>>)
    requires start <= cursor
  {
    Items(ExportSection(payload, limit, decode)) ==
    if cursor > start + |payload| then Rejected
    else Prepend(Ok(done), Items(Entries(payload, cursor - start, left, limit, decode)))
  }

  /** The entry count, read in the file, starts the payload's entries. */
  lemma EntriesStart<N>(data: Bytes, start: nat, end: nat, limit: nat, decode: Bytes -> Option<N>)
    requires start <= end <= |data|
    ensures match ReadAt(data, start, limit)
            case Malformed => ExportSection(data[start..end], limit, decode).None?
            case Read(count, next) => Progress(data[start..end], start, next, count, limit, decode, [])
  {
    ReadSlice(data, start, end, start, limit);
  }

  lemma EntriesDone<N>(payload: Bytes, start: nat, cursor: nat, limit: nat, decode: Bytes -> Option<N>,
                       done: seq<Export<N>>)
    requires start <= cursor && Progress(payload, start, cursor, 0, limit, decode, done)
    ensures Items(ExportSection(payload, limit, decode)) == if cursor == start + |payload| then Ok(done) else Rejected
  {
    assert done + [] == done;
  }

  lemma EntriesStep<N>(payload: Bytes, start: nat, cursor: nat, left: nat, limit: nat, decode: Bytes -> Option<N>,
                       done: seq<Export<N>>, r: Result<Export<N>>, next: nat)
    requires start <= cursor && left > 0 && Progress(payload, start, cursor, left, limit, decode, done)
    requires EntryReported(payload, start, cursor, limit, decode, r, next)
    ensures r.Rejected? ==> ExportSection(payload, limit, decode).None?
    ensures r.Ok? ==> start <= next && Progress(payload, start, next, left - 1, limit, decode, done + [r.value])
  {
    if cursor <= start + |payload| {
      match EntryAt(payload, cursor - start, limit, decode)
      case BadEntry =>
      case Entry(entry, after, _) =>
        PrependAssociative(done, [entry], Items(Entries(payload, after, left - 1, limit, decode)));
    }
  }

  /** scripts/build_public.py: nested readers share one moving offset. */
  class ExportParser<N(==)> {
    const data: Bytes
    const decode: Bytes -> Option<N>
    var offset: nat

    constructor (data: Bytes, decode: Bytes -> Option<N>)
      ensures this.data == data && this.decode == decode && offset == 0
    {
      this.data, this.decode, this.offset := data, decode, 0;
    }

    method ReadU32() returns (value: Option<nat>)
      requires offset <= |data|
      modifies this`offset
      ensures old(offset) <= offset <= |data|
      ensures match ReadAt(data, old(offset), 5)
              case Malformed => value == None
              case Read(v, next) => value == Some(v) && offset == next
    {
      hide ReadAt, Shl, BitOr, Resume;
      var acc: nat, shift: nat := 0, 0;
      ResumeStart(ReadAt(data, offset, 5));
      ghost var start := offset;
      while offset < |data| && shift < 35
        invariant start <= offset <= |data|
        invariant shift % 7 == 0 && shift <= 35 && acc < Shl(1, shift)
        invariant ReadAt(data, start, 5) == Resume(acc, shift, ReadAt(data, offset, 5 - shift / 7))
        decreases |data| - offset
      {
        ResumeStep(acc, shift, data, offset, 5 - shift / 7);
        var b := data[offset];
        offset := offset + 1;
        acc := BitOr(acc, Shl(b % 128, shift));
        if b < 128 {
          return Some(acc);
        }
        shift := shift + 7;
      }
      ReadEnd(acc, shift, data, offset, 5 - shift / 7);
      return None;
    }

    method ReadName() returns (name: Option<N>)
      requires offset <= |data|
      modifies this`offset
      ensures old(offset) <= offset <= |data|
      ensures NameRead(data, old(offset), decode, name, offset)
    {
      var length := ReadU32();
      if length.None? || offset + length.value > |data| {
        return None;
      }
      var end := offset + length.value;
      name := decode(data[offset..end]);
      if name.Some? {
        offset := end;
      }
    }

    /** Names may run past the section's end; the kind byte may not. */
    method ParseEntry(ghost start: nat, end: nat) returns (r: Result<Export<N>>)
      requires start <= end <= |data| && start <= offset <= |data|
      modifies this`offset
      ensures EntryReported(data[start..end], start, old(offset), 5, decode, r, offset)
      ensures old(offset) <= offset <= |data|
    {
      hide ReadAt;
      hide EntryReported;
      ghost var from := offset;
      var name := ReadName();
      if name.None? || offset >= end {
        NoEntry(data, start, end, from, decode, name, offset);
        return Rejected;
      }
      ghost var at := offset;
      var kind := data[offset];
      offset := offset + 1;
      var index := ReadU32();
      OneEntry(data, start, end, from, decode, name, at, index, offset);
      if index.None? {
        return Rejected;
      }
      return Ok(Export(name.value, kind, index.value));
    }

    method ParseExportSection(end: nat) returns (r: Result<seq<Export<N>>>)
      requires offset <= end <= |data|
      modifies this`offset
      ensures r == Items(ExportSection(data[old(offset)..end], 5, decode))
    {
      hide EntryAt, Entries, EntryReported, Progress;
      ghost var start := offset;
      ghost var payload := data[start..end];
      EntriesStart(data, start, end, 5, decode);
      var count := ReadU32();
      if count.None? {
        return Rejected;
      }
      var exports, i := [], 0;
      while i < count.value
        invariant start <= offset <= |data| && i <= count.value
        invariant Progress(payload, start, offset, count.value - i, 5, decode, exports)
      {
        ghost var at := offset;
        var entry := ParseEntry(start, end);
        EntriesStep(payload, start, at, count.value - i, 5, decode, exports, entry, offset);
        if entry.Rejected? {
          return Rejected;
        }
        exports := exports + [entry.value];
        i := i + 1;
      }
      EntriesDone(payload, start, offset, 5, decode, exports);
      if offset != end {
        return Rejected;
      }
      return Ok(exports);
    }

    method Parse() returns (r: Result<seq<Export<N>>>)
      modifies this`offset
      ensures r == Packaged(data, decode)
    {
      hide Sections, Collect, ExportSection, ReadAt;
      if !(HEADER <= data) {
        return Rejected;
      }
      offset := 8;
      var exports := [];
      PrependNothing(Items(ExportsFrom(data, 8, 5, decode)));
      while offset < |data|
        invariant offset <= |data|
        invariant Items(ModuleExports(data, 5, decode))
                  == Prepend(Ok(exports), Items(ExportsFrom(data, offset, 5, decode)))
        decreases |data| - offset
      {
        SectionStep(data, offset, 5, decode);
        var section := data[offset];
        offset := offset + 1;
        var length := ReadU32();
        if length.None? || offset + length.value > |data| {
          return Rejected;
        }
        var end := offset + length.value;
        ghost var rest := Items(ExportsFrom(data, end, 5, decode));
        if section == 7 {
          var found := ParseExportSection(end);
          if found.Rejected? {
            return Rejected;
          }
          PrependAssociative(exports, found.value, rest);
          exports := exports + found.value;
        } else {
          PrependAssociative(exports, [], rest);
          assert exports + [] == exports;
        }
        offset := end;
      }
      SectionsEnd(data, 5, decode);
      assert exports + [] == exports;
      DistinctCount(Names(exports));
      if |exports| != |set n | n in Names(exports)| {
        return Rejected;
      }
      return Ok(exports);
    }
  }

  function Names<N>(es: seq<Export<N>>): seq<N> { seq(|es|, i requires 0 <= i < |es| => es[i].name) }

  /** What the packager's parser returns: the five-byte reading with distinct names. */
  function Packaged<N(==)>(data: Bytes, decode: Bytes -> Option<N>): Result<seq<Export<N>>> {
    var found := Items(ModuleExports(data, 5, decode));
    if found.Ok? && Distinct(Names(found.value)) then found else Rejected
  }

  // ---- The two export walkers agree ----

  /** A smaller integer limit keeps exactly the scans whose integers all fit it. */
  function Narrow<T>(found: Option<Scan<T>>, limit: nat): Option<Scan<T>> {
    if found.Some? && found.value.widest <= limit then found else None
  }

  lemma {:induction false} SectionsNarrow(data: Bytes, offset: nat, short: nat, long: nat)
    requires short <= long
    ensures Sections(data, offset, short) == Narrow(Sections(data, offset, long), short)
    decreases |data| - offset
  {
    hide SectionAt, ReadAt;
    if offset < |data| {
      SectionNarrow(data, offset, short, long);
      var found := SectionAt(data, offset, long);
      if found.Found? {
        SectionsNarrow(data, found.next, short, long);
      }
    }
  }

  lemma SectionNarrow(data: Bytes, offset: nat, short: nat, long: nat)
    requires short <= long && offset < |data|
    ensures SectionAt(data, offset, short) ==
            var found := SectionAt(data, offset, long);
            if found.Found? && found.width > short then BadSection else found
  {
    hide ReadAt;
    Restriction(data, offset + 1, short, long);
  }

  lemma {:induction false} EntriesNarrow<N>(payload: Bytes, at: nat, count: nat, short: nat, long: nat,
                                            decode: Bytes -> Option<N>)
    requires short <= long
    ensures Entries(payload, at, count, short, decode) == Narrow(Entries(payload, at, count, long, decode), short)
    decreases count
  {
    hide EntryAt, ReadAt;
    if count > 0 {
      EntryNarrow(payload, at, short, long, decode);
      var e := EntryAt(payload, at, long, decode);
      if e.Entry? {
        EntriesNarrow(payload, e.next, count - 1, short, long, decode);
      }
    }
  }

  lemma EntryNarrow<N>(payload: Bytes, at: nat, short: nat, long: nat, decode: Bytes -> Option<N>)
    requires short <= long
    ensures EntryAt(payload, at, short, decode) ==
            var e := EntryAt(payload, at, long, decode);
            if e.Entry? && e.width > short then BadEntry else e
  {
    hide ReadAt;
    Restriction(payload, at, short, long);
    var size := ReadAt(payload, at, long);
    if size.Read? {
      Restriction(payload, size.next + size.value + 1, short, long);
    }
  }

  lemma {:induction false} CollectNarrow<N>(ss: seq<Section>, short: nat, long: nat, decode: Bytes -> Option<N>)
    requires short <= long
    ensures Collect(ss, short, decode) == Narrow(Collect(ss, long, decode), short)
  {
    hide ReadAt, Entries;
    if ss == [] {
    } else {
      CollectNarrow(ss[1..], short, long, decode);
      Restriction(ss[0].payload, 0, short, long);
      var count := ReadAt(ss[0].payload, 0, long);
      if count.Read? {
        EntriesNarrow(ss[0].payload, count.next, count.value, short, long, decode);
      }
    }
  }

  /** The packager's parser returns records exactly when the producer's walker
      returns those same records, their names are distinct, and every integer
      the walker read took at most five bytes. */
  lemma WalkersAgree<N>(data: Bytes, decode: Bytes -> Option<N>)
    ensures var produced := ModuleExports(data, 10, decode);
            Packaged(data, decode) ==
            if produced.Some? && produced.value.widest <= 5 && Distinct(Names(produced.value.items))
            then Ok(produced.value.items) else Rejected
  {
    SectionsNarrow(data, 8, 5, 10);
    var found := Sections(data, 8, 10);
    if found.Some? { CollectNarrow(found.value.items, 5, 10, decode); }
  }

  // ---- scripts/audit_compiler_cache.py ----

  datatype WasmKind = NotWasm | Invalid | Relocatable | Nonrelocatable

  /** The name at the start of a custom section's payload. */
  function CustomName(payload: Bytes): Option<Bytes> {
    match ReadAt(payload, 0, 10)
    case Malformed => None
    case Read(size, at) => if at + size > |payload| then None else Some(payload[at..at + size])
  }

  predicate WellFormed(s: Section) { s.id <= 12 && (s.id == 0 ==> CustomName(s.payload).Some?) }

  predicate Links(s: Section) { s.id == 0 && CustomName(s.payload) == Some(LINKING) }

  function Kind(found: Option<Scan<Section>>): WasmKind {
    if found.None? || exists s :: s in found.value.items && !WellFormed(s) then Invalid
    else if exists s :: s in found.value.items && Links(s) then Relocatable
    else Nonrelocatable
  }

  /** The loop's state: sections already passed were well formed. */
  function KindAfter(linking: bool, rest: Option<Scan<Section>>): WasmKind {
    if Kind(rest) == Nonrelocatable && linking then Relocatable else Kind(rest)
  }

  method WasmType(data: Bytes) returns (kind: WasmKind)
    ensures kind == if !(HEADER[..4] <= data) then NotWasm
                    else if !HasHeader(data) then Invalid
                    else Kind(Sections(data, 8, 10))
  {
    if !(HEADER[..4] <= data) {
      return NotWasm;
    }
    if |data| < 8 {
      return Invalid;
    }
    HeaderParts(data);
    if data[4..8] != HEADER[4..8] {
      return Invalid;
    }
    kind := SectionLoop(data);
  }

  /** The loop of `_wasm_type` over the sections. */
  method SectionLoop(data: Bytes) returns (kind: WasmKind)
    requires |data| >= 8
    ensures kind == Kind(Sections(data, 8, 10))
  {
    hide Sections, Kind, ReadAt, CustomName;
    var offset: nat, linking := 8, false;
    while offset < |data|
      invariant offset <= |data|
      invariant Kind(Sections(data, 8, 10)) == KindAfter(linking, Sections(data, offset, 10))
      decreases |data| - offset
    {
      KindStep(data, offset);
      var sectionId := data[offset];
      offset := offset + 1;
      if sectionId > 12 {
        return Invalid;
      }
      var size := ReadUleb(data, offset);
      if size.Malformed? {
        return Invalid;
      }
      offset := size.next;
      var end := offset + size.value;
      if end > |data| {
        return Invalid;
      }
      if sectionId == 0 {
        var name := CustomNameWithin(data, offset, end);
        if name.None? {
          return Invalid;
        }
        if name.value == LINKING {
          linking := true;
        }
      }
      offset := end;
    }
    KindEnd(data);
    return if linking then Relocatable else Nonrelocatable;
  }

  method CustomNameWithin(data: Bytes, start: nat, end: nat) returns (name: Option<Bytes>)
    requires start <= end <= |data|
    ensures name == CustomName(data[start..end])
  {
    ReadSlice(data, start, end, start, 10);
    var size := ReadUleb(data, start);
    if size.Malformed? || size.next + size.value > end {
      return None;
    }
    SliceOfSlice(data, start, end, size.next, size.next + size.value);
    return Some(data[size.next..size.next + size.value]);
  }

  lemma SliceOfSlice(data: Bytes, lo: nat, hi: nat, from: nat, to: nat)
    requires lo <= from <= to <= hi <= |data|
    ensures data[lo..hi][from - lo..to - lo] == data[from..to]
  {
    var inner := data[lo..hi];
    assert forall i :: from <= i < to ==> inner[i - lo] == data[i];
  }

  lemma KindStep(data: Bytes, offset: nat)
    requires offset < |data|
    ensures Kind(Sections(data, offset, 10)) ==
            match SectionAt(data, offset, 10)
            case BadSection => Invalid
            case Found(s, next, _) =>
              if WellFormed(s) then KindAfter(Links(s), Sections(data, next, 10)) else Invalid
  {
    match SectionAt(data, offset, 10)
    case BadSection =>
    case Found(s, next, _) =>
      var rest := Sections(data, next, 10);
      if rest.Some? {
        assert forall x :: x in [s] + rest.value.items <==> x == s || x in rest.value.items;
        assert s in [s] + rest.value.items;
      }
  }

  lemma KindEnd(data: Bytes)
    ensures Kind(Sections(data, |data|, 10)) == Nonrelocatable
  {
  }

  // ---- Encoding and reading back ----

  /** A byte string behind its length. */
  function Sized(b: Bytes): Bytes { Encode(|b|) + b }

  lemma SizedInPlace(before: Bytes, body: Bytes, after: Bytes, limit: nat)
    requires limit > 0 && |body| < Pow128(limit)
    ensures var data, end := before + Sized(body) + after, |before + Sized(body)|;
            && ReadAt(data, |before|, limit) == Read(|body|, end - |body|)
            && data[end - |body|..end] == body
  {
    var data := before + Sized(body) + after;
    assert data == before + Encode(|body|) + (body + after);
    EncodeLength(|body|, limit);
    RoundTrip(before, |body|, body + after, limit);
  }

  function EncodeSection(s: Section): Bytes { [s.id] + Sized(s.payload) }

  function EncodeSections(ss: seq<Section>): Bytes {
    if ss == [] then [] else EncodeSection(ss[0]) + EncodeSections(ss[1..])
  }

  function EncodeModule(ss: seq<Section>): Bytes { HEADER + EncodeSections(ss) }

  predicate Encodable(ss: seq<Section>, limit: nat) {
    forall s :: s in ss ==> |s.payload| < Pow128(limit)
  }

  lemma SectionInPlace(before: Bytes, s: Section, after: Bytes, limit: nat)
    requires limit > 0 && |s.payload| < Pow128(limit)
    ensures var r := SectionAt(before + EncodeSection(s) + after, |before|, limit);
            r.Found? && r.section == s && r.next == |before + EncodeSection(s)|
  {
    hide Encode, ReadAt, Pow128, Sized;
    assert before + EncodeSection(s) + after == (before + [s.id]) + Sized(s.payload) + after;
    SizedInPlace(before + [s.id], s.payload, after, limit);
  }

  lemma EncodeSectionsCons(before: Bytes, ss: seq<Section>)
    requires ss != []
    ensures before + EncodeSections(ss) == before + EncodeSection(ss[0]) + EncodeSections(ss[1..])
  {
    hide Encode, EncodeSection;
    assert EncodeSections(ss) == EncodeSection(ss[0]) + EncodeSections(ss[1..]);
  }

  /** Reading an encoded module gives back its sections, which tile it to the last byte. */
  lemma {:induction false} SectionsRoundTrip(before: Bytes, ss: seq<Section>, limit: nat)
    requires limit > 0 && Encodable(ss, limit)
    ensures Items(Sections(before + EncodeSections(ss), |before|, limit)) == Ok(ss)
    decreases |ss|
  {
    hide ReadAt, Encode, Pow128, EncodeSection, SectionAt, Sections;
    if ss != [] {
      SectionInPlace(before, ss[0], EncodeSections(ss[1..]), limit);
      EncodeSectionsCons(before, ss);
      SectionsRoundTrip(before + EncodeSection(ss[0]), ss[1..], limit);
      SectionsNext(before + EncodeSections(ss), |before|, limit);
      assert ss == [ss[0]] + ss[1..];
    } else {
      assert before + [] == before;
      SectionsDone(before, limit);
    }
  }

  lemma SectionsDone(data: Bytes, limit: nat)
    ensures Items(Sections(data, |data|, limit)) == Ok([])
  {
  }

  lemma SectionsNext(data: Bytes, offset: nat, limit: nat)
    requires offset < |data| && SectionAt(data, offset, limit).Found?
    ensures var r := SectionAt(data, offset, limit);
            Items(Sections(data, offset, limit)) == Prepend(Ok([r.section]), Items(Sections(data, r.next, limit)))
  {
    hide ReadAt;
  }

  function EncodeEntry(e: Export<Bytes>): Bytes {
    Sized(e.name) + ([e.kind] + Encode(e.index))
  }

  function EncodeEntries(es: seq<Export<Bytes>>): Bytes {
    if es == [] then [] else EncodeEntry(es[0]) + EncodeEntries(es[1..])
  }

  function ExportPayload(es: seq<Export<Bytes>>): Bytes { Encode(|es|) + EncodeEntries(es) }

  function Decoded<N>(es: seq<Export<Bytes>>, decode: Bytes -> Option<N>): seq<Export<N>>
    requires forall e :: e in es ==> decode(e.name).Some?
  {
    seq(|es|, i requires 0 <= i < |es| => Export(decode(es[i].name).value, es[i].kind, es[i].index))
  }

  predicate EncodableExports<N>(es: seq<Export<Bytes>>, limit: nat, decode: Bytes -> Option<N>) {
    |es| < Pow128(limit) &&
    forall e :: e in es ==> decode(e.name).Some? && |e.name| < Pow128(limit) && e.index < Pow128(limit)
  }

  lemma EntryInPlace<N>(before: Bytes, e: Export<Bytes>, after: Bytes, limit: nat, decode: Bytes -> Option<N>)
    requires limit > 0
    requires decode(e.name).Some? && |e.name| < Pow128(limit) && e.index < Pow128(limit)
    ensures var r := EntryAt(before + EncodeEntry(e) + after, |before|, limit, decode);
            r.Entry? && r.entry == Export(decode(e.name).value, e.kind, e.index) && r.next == |before + EncodeEntry(e)|
  {
    hide ReadAt, Encode, Pow128;
    var payload, named := before + EncodeEntry(e) + after, before + Sized(e.name);
    var tail := [e.kind] + Encode(e.index);
    assert payload == named + (tail + after);
    SizedInPlace(before, e.name, tail + after, limit);
    assert payload == (named + [e.kind]) + Encode(e.index) + after;
    EncodeLength(e.index, limit);
    RoundTrip(named + [e.kind], e.index, after, limit);
    assert payload[|named|] == e.kind;
  }

  lemma {:induction false} EntriesRoundTrip<N>(before: Bytes, es: seq<Export<Bytes>>, limit: nat,
                                               decode: Bytes -> Option<N>)
    requires limit > 0
    requires forall e :: e in es ==> decode(e.name).Some? && |e.name| < Pow128(limit) && e.index < Pow128(limit)
    ensures Items(Entries(before + EncodeEntries(es), |before|, |es|, limit, decode)) == Ok(Decoded(es, decode))
    decreases |es|
  {
    hide EntryAt, EncodeEntry;
    if es != [] {
      assert before + EncodeEntries(es) == before + EncodeEntry(es[0]) + EncodeEntries(es[1..]);
      EntryInPlace(before, es[0], EncodeEntries(es[1..]), limit, decode);
      EntriesRoundTrip(before + EncodeEntry(es[0]), es[1..], limit, decode);
      assert Decoded(es, decode) == [Decoded(es, decode)[0]] + Decoded(es[1..], decode);
    } else {
      assert before + [] == before;
    }
  }

  /** A module to encode: any sections, some of them export sections. */
  datatype Part<+E> = Plain(section: Section) | Exports(entries: seq<E>)

  function SectionOf(p: Part<Export<Bytes>>): Section {
    match p
    case Plain(s) => s
    case Exports(es) => Section(7, ExportPayload(es))
  }

  function SectionsOf(ps: seq<Part<Export<Bytes>>>): seq<Section> {
    if ps == [] then [] else [SectionOf(ps[0])] + SectionsOf(ps[1..])
  }

  predicate EncodablePart<N>(p: Part<Export<Bytes>>, limit: nat, decode: Bytes -> Option<N>) {
    && |SectionOf(p).payload| < Pow128(limit)
    && match p case Plain(s) => s.id != 7 case Exports(es) => EncodableExports(es, limit, decode)
  }

  function PartExports<N>(p: Part<Export<Bytes>>, limit: nat, decode: Bytes -> Option<N>): seq<Export<N>>
    requires EncodablePart(p, limit, decode)
  {
    match p case Plain(_) => [] case Exports(es) => Decoded(es, decode)
  }

  function AllExports<N>(ps: seq<Part<Export<Bytes>>>, limit: nat, decode: Bytes -> Option<N>): seq<Export<N>>
    requires forall p :: p in ps ==> EncodablePart(p, limit, decode)
  {
    if ps == [] then []
    else assert ps[0] in ps; PartExports(ps[0], limit, decode) + AllExports(ps[1..], limit, decode)
  }

  lemma PartRoundTrip<N>(p: Part<Export<Bytes>>, limit: nat, decode: Bytes -> Option<N>)
    requires limit > 0 && EncodablePart(p, limit, decode)
    ensures Items(SectionExports(SectionOf(p), limit, decode)) == Ok(PartExports(p, limit, decode))
  {
    hide ReadAt, Encode, Entries, EncodeEntries, Pow128;
    match p
    case Plain(_) =>
    case Exports(es) =>
      EncodeLength(|es|, limit);
      assert ExportPayload(es) == [] + Encode(|es|) + EncodeEntries(es);
      RoundTrip([], |es|, EncodeEntries(es), limit);
      EntriesRoundTrip(Encode(|es|), es, limit, decode);
      PrependNothing(Items(Entries(ExportPayload(es), |Encode(|es|)|, |es|, limit, decode)));
  }

  lemma {:induction false} CollectRoundTrip<N>(ps: seq<Part<Export<Bytes>>>, limit: nat, decode: Bytes -> Option<N>)
    requires limit > 0 && forall p :: p in ps ==> EncodablePart(p, limit, decode)
    ensures Items(Collect(SectionsOf(ps), limit, decode)) == Ok(AllExports(ps, limit, decode))
    ensures Encodable(SectionsOf(ps), limit)
  {
    if ps == [] {
    } else {
      CollectRoundTrip(ps[1..], limit, decode);
      assert SectionsOf(ps)[1..] == SectionsOf(ps[1..]);
      assert ps[0] in ps;
      PartRoundTrip(ps[0], limit, decode);
    }
  }

  /** Encoding any sections and walking the file returns exactly the encoded
      exports in order, under either integer limit. */
  lemma ModuleRoundTrip<N>(ps: seq<Part<Export<Bytes>>>, limit: nat, decode: Bytes -> Option<N>)
    requires limit > 0 && forall p :: p in ps ==> EncodablePart(p, limit, decode)
    ensures Items(ModuleExports(EncodeModule(SectionsOf(ps)), limit, decode)) == Ok(AllExports(ps, limit, decode))
  {
    CollectRoundTrip(ps, limit, decode);
    SectionsRoundTrip(HEADER, SectionsOf(ps), limit);
    PrependNothing(Items(Collect(SectionsOf(ps), limit, decode)));
  }

  lemma EncodedHeader(ss: seq<Section>)
    ensures HasHeader(EncodeModule(ss)) && EncodeModule(ss)[..8] == Ascii("\0asm") + [1, 0, 0, 0]
  {
    assert EncodeModule(ss)[..8] == HEADER == Ascii("\0asm") + [1, 0, 0, 0];
  }

  lemma Linking()
    ensures Ascii("linking") == LINKING
  {
  }

  /** On an encoded module the cache auditor says invalid exactly when a section
      has an unknown id or is a custom section without a name, and otherwise
      relocatable exactly when some custom section is named "linking". */
  lemma EncodedKind(ss: seq<Section>)
    requires Encodable(ss, 10)
    ensures HasHeader(EncodeModule(ss)) && EncodeModule(ss)[..8] == Ascii("\0asm") + [1, 0, 0, 0]
    ensures Kind(Sections(EncodeModule(ss), 8, 10)) ==
            if exists s :: s in ss && (s.id >= 13 || (s.id == 0 && CustomName(s.payload).None?)) then Invalid
            else if exists s :: s in ss && s.id == 0 && CustomName(s.payload) == Some(Ascii("linking")) then Relocatable
            else Nonrelocatable
  {
    hide Ascii, CustomName;
    EncodedHeader(ss);
    Linking();
    SectionsRoundTrip(HEADER, ss, 10);
    assert forall s :: s in ss && !WellFormed(s) ==> s.id >= 13 || (s.id == 0 && CustomName(s.payload).None?);
  }

  /** A custom section encoded with a name reads that name back. */
  lemma CustomNameRoundTrip(name: Bytes, body: Bytes)
    requires |name| < Pow128(10)
    ensures CustomName(Encode(|name|) + name + body) == Some(name)
  {
    hide Encode, ReadAt, Pow128, CustomName;
    var size, code := |name|, Encode(|name|);
    EncodeLength(size, 10);
    NameBetween(code, name, body);
    RoundTrip([], size, name + body, 10);
    NamePlaced(code + name + body, size, |code|);
  }

  lemma NamePlaced(payload: Bytes, size: nat, at: nat)
    requires ReadAt(payload, 0, 10) == Read(size, at) && at + size <= |payload|
    ensures CustomName(payload) == Some(payload[at..at + size])
  {
    hide ReadAt;
  }

  lemma NameBetween(code: Bytes, name: Bytes, body: Bytes)
    ensures code + name + body == [] + code + (name + body)
    ensures |code + name + body| >= |code| + |name| && (code + name + body)[|code|..|code| + |name|] == name
  {
  }
}
