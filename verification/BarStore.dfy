/** The bar file store (`crates/bar-store/src/store.rs`): file names, the writer
    queue and the disk. The disk is a map from paths to bytes; writes succeed. */
module BarStore {
  import opened Bars
  import opened BarFormat
  import opened Strings

  /** A path below the bars directory: `dir/stem.ext`. */
  datatype Path = Path(dir: string, stem: string, ext: string)

  /** A series key: exchange name, account label, symbol and timeframe. */
  datatype Key = Key(exchange: string, accountType: string, symbol: string, timeframe: string)

  type Disk = map<Path, seq<Byte>>

  datatype BarWriteCmd = Write(path: Path, bars: seq<Bar>) | Flush

  // ---------------------------------------------------------------------------
  // File names
  // ---------------------------------------------------------------------------

  function Replace(s: string, from: char, to: char): string {
    if s == "" then "" else [if s[0] == from then to else s[0]] + Replace(s[1..], from, to)
  }

  function Lower(s: string): string {
    if s == "" then ""
    else [if 'A' <= s[0] <= 'Z' then s[0] - 'A' + 'a' else s[0]] + Lower(s[1..])
  }

  /** The symbol as it stands in file names. */
  function SafeSymbol(symbol: string): string {
    Replace(Replace(symbol, '/', '-'), ':', '_')
  }

  predicate Spot(key: Key) {
    key.accountType == "" || key.accountType == "S"
  }

  /** Spot files keep the old two-part name. */
  function Stem(key: Key): string {
    if Spot(key) then SafeSymbol(key.symbol) + "_" + key.timeframe
    else SafeSymbol(key.symbol) + "_" + key.accountType + "_" + key.timeframe
  }

  /** Replacing goes character by character. */
  lemma {:induction false} ReplaceEach(s: string, from: char, to: char)
    ensures |Replace(s, from, to)| == |s|
    ensures forall i :: 0 <= i < |s| ==> Replace(s, from, to)[i] == if s[i] == from then to else s[i]
  {
    if s != "" {
      ReplaceEach(s[1..], from, to);
    }
  }

  /** Capital letters become small ones, all else stays. */
  lemma {:induction false} LowerEach(s: string)
    ensures |Lower(s)| == |s|
    ensures forall i :: 0 <= i < |s| ==>
              Lower(s)[i] == if 'A' <= s[i] <= 'Z' then (s[i] as int + 32) as char else s[i]
  {
    if s != "" {
      LowerEach(s[1..]);
    }
  }

  function FilePath(key: Key): Path {
    Path(Lower(key.exchange), Stem(key), "bin")
  }

  predicate Plain(s: string) {
    '/' !in s && ':' !in s && '_' !in s
  }

  /** Timeframe and account label have no underscore; the symbol may be any string. */
  predicate PlainTail(key: Key) {
    '_' !in key.timeframe && '_' !in key.accountType
  }

  predicate PlainKey(key: Key) {
    Plain(key.symbol) && PlainTail(key)
  }

  /** The stem up to the timeframe. */
  function Tag(key: Key): string {
    if Spot(key) then SafeSymbol(key.symbol) else SafeSymbol(key.symbol) + "_" + key.accountType
  }

  /** The symbols and accounts give the same tag. */
  predicate SameTag(a: Key, b: Key) {
    if Spot(a) && Spot(b) then SafeSymbol(a.symbol) == SafeSymbol(b.symbol)
    else if Spot(a) then SafeSymbol(a.symbol) == SafeSymbol(b.symbol) + "_" + b.accountType
    else if Spot(b) then SafeSymbol(b.symbol) == SafeSymbol(a.symbol) + "_" + a.accountType
    else SafeSymbol(a.symbol) == SafeSymbol(b.symbol) && a.accountType == b.accountType
  }

  predicate SharePath(a: Key, b: Key) {
    Lower(a.exchange) == Lower(b.exchange) && a.timeframe == b.timeframe && SameTag(a, b)
  }

  lemma {:induction false} ReplaceNothing(s: string, from: char, to: char)
    requires from !in s
    ensures Replace(s, from, to) == s
  {
    if s != "" {
      ReplaceNothing(s[1..], from, to);
    }
  }

  lemma StemIsTag(key: Key)
    ensures Stem(key) == Tag(key) + ['_'] + key.timeframe
  {
    hide SafeSymbol;
  }

  lemma TagsEqual(a: Key, b: Key)
    requires PlainTail(a) && PlainTail(b)
    ensures Tag(a) == Tag(b) <==> SameTag(a, b)
  {
    hide SafeSymbol;
    if !Spot(a) && !Spot(b) && Tag(a) == Tag(b) {
      SplitLast(SafeSymbol(a.symbol), SafeSymbol(b.symbol), a.accountType, b.accountType, '_');
    }
  }

  /** Exactly when two keys share a file: same exchange but for case, same timeframe,
      and the replaced symbols, each with its account label unless it is spot, agree. */
  lemma SharedPathsExactly(a: Key, b: Key)
    requires PlainTail(a) && PlainTail(b)
    ensures FilePath(a) == FilePath(b) <==> SharePath(a, b)
  {
    hide Lower, Tag, Stem, SameTag;
    StemIsTag(a);
    StemIsTag(b);
    TagsEqual(a, b);
    if Stem(a) == Stem(b) {
      SplitLast(Tag(a), Tag(b), a.timeframe, b.timeframe, '_');
    }
  }

  lemma SafePlain(symbol: string)
    requires '/' !in symbol && ':' !in symbol
    ensures SafeSymbol(symbol) == symbol
  {
    ReplaceNothing(symbol, '/', '-');
    ReplaceNothing(symbol, ':', '_');
  }

  /** Keys made of plain names have different files, unless they differ only in how
      they name the spot account, or in the case of the exchange. */
  lemma PlainPathsDistinct(a: Key, b: Key)
    requires PlainKey(a) && PlainKey(b) && FilePath(a) == FilePath(b)
    ensures a.symbol == b.symbol && a.timeframe == b.timeframe && Lower(a.exchange) == Lower(b.exchange)
    ensures a.accountType == b.accountType || {a.accountType, b.accountType} == {"", "S"}
  {
    hide Lower, FilePath, SafeSymbol;
    SharedPathsExactly(a, b);
    SafePlain(a.symbol);
    SafePlain(b.symbol);
    assert !Spot(a) ==> '_' in SafeSymbol(a.symbol) + "_" + a.accountType by { HasUnderscore(a.symbol, a.accountType); }
    assert !Spot(b) ==> '_' in SafeSymbol(b.symbol) + "_" + b.accountType by { HasUnderscore(b.symbol, b.accountType); }
  }

  lemma HasUnderscore(s: string, t: string)
    ensures '_' in SafeSymbol(s) + "_" + t
  {
    hide SafeSymbol;
    assert (SafeSymbol(s) + "_" + t)[|SafeSymbol(s)|] == '_';
  }

  /** An underscore in a symbol makes two keys share a file, and so does a slash
      beside a dash. */
  lemma SharedPaths()
    ensures FilePath(Key("x", "F", "A", "1m")) == FilePath(Key("x", "S", "A_F", "1m"))
    ensures FilePath(Key("x", "S", "A/B", "1m")) == FilePath(Key("x", "S", "A-B", "1m"))
  {
    hide Replace, Lower;
    SafePlain("A");
    SafePlain("A_F");
    SafePlain("A-B");
    SlashToDash();
    ReplaceNothing("A-B", ':', '_');
    assert "A_F" + "_" + "1m" == "A" + "_" + "F" + "_" + "1m";
  }

  /** The names of some files: a spot pair, a futures pair, a symbol with a colon. */
  lemma FileNames()
    ensures FilePath(Key("Binance", "S", "BTC/USDT", "15m")) == Path("binance", "BTC-USDT_15m", "bin")
    ensures FilePath(Key("Binance", "", "BTC/USDT", "15m")) == Path("binance", "BTC-USDT_15m", "bin")
    ensures FilePath(Key("OKX", "F", "A:B", "1h")) == Path("okx", "A_B_F_1h", "bin")
  {
    hide Replace, Lower;
    LowerEach("Binance");
    LowerEach("OKX");
    assert Lower("Binance") == "binance" && Lower("OKX") == "okx";
    ReplaceEach("BTC/USDT", '/', '-');
    assert Replace("BTC/USDT", '/', '-') == "BTC-USDT";
    ReplaceEach("BTC-USDT", ':', '_');
    assert Replace("BTC-USDT", ':', '_') == "BTC-USDT";
    ReplaceEach("A:B", '/', '-');
    assert Replace("A:B", '/', '-') == "A:B";
    ReplaceEach("A:B", ':', '_');
    assert Replace("A:B", ':', '_') == "A_B";
    assert "BTC-USDT" + "_" + "15m" == "BTC-USDT_15m" && "A_B" + "_" + "F" + "_" + "1h" == "A_B_F_1h";
  }

  lemma SlashToDash()
    ensures Replace("A/B", '/', '-') == "A-B"
  {
    assert "A/B"[1..] == "/B" && "/B"[1..] == "B" && "B"[1..] == "";
    assert Replace("/B", '/', '-') == "-B";
  }

  // ---------------------------------------------------------------------------
  // Writing one file
  // ---------------------------------------------------------------------------

  /** `path.with_extension("tmp")`. */
  function TmpPath(path: Path): Path {
    path.(ext := "tmp")
  }

  /** The disk after a whole write: the temporary file was renamed over the path. */
  function Written(disk: Disk, path: Path, bars: seq<Bar>): Disk {
    disk[TmpPath(path) := Encode(bars)][path := Encode(bars)] - {TmpPath(path)}
  }

  /** What the file system does for a write, one step at a time. */
  datatype DiskStep =
    | CreateFile(path: Path)
    | ExtendFile(path: Path, byte: Byte)
    | RenameFile(path: Path, to: Path)

  function Do(disk: Disk, step: DiskStep): Disk {
    match step
    case CreateFile(p) => disk[p := []]
    case ExtendFile(p, b) => if p in disk then disk[p := disk[p] + [b]] else disk
    case RenameFile(p, to) => if p in disk && p != to then disk[to := disk[p]] - {p} else disk
  }

  function DoAll(disk: Disk, steps: seq<DiskStep>): Disk
    decreases |steps|
  {
    if steps == [] then disk else DoAll(Do(disk, steps[0]), steps[1..])
  }

  function Extensions(path: Path, data: seq<Byte>): (steps: seq<DiskStep>)
    ensures |steps| == |data|
  {
    seq(|data|, i requires 0 <= i < |data| => ExtendFile(path, data[i]))
  }

  /** Write the temporary file byte by byte, then rename it. */
  function WriteSteps(path: Path, data: seq<Byte>): seq<DiskStep> {
    [CreateFile(TmpPath(path))] + Extensions(TmpPath(path), data) + [RenameFile(TmpPath(path), path)]
  }

  lemma {:induction false} DoAllAppend(disk: Disk, a: seq<DiskStep>, b: seq<DiskStep>)
    ensures DoAll(disk, a + b) == DoAll(DoAll(disk, a), b)
    decreases |a|
  {
    if a == [] {
      assert a + b == b;
    } else {
      assert (a + b)[1..] == a[1..] + b;
      DoAllAppend(Do(disk, a[0]), a[1..], b);
    }
  }

  lemma DoOne(disk: Disk, step: DiskStep)
    ensures DoAll(disk, [step]) == Do(disk, step)
  {
    assert [step][1..] == [];
  }

  lemma {:induction false} ExtendAll(disk: Disk, path: Path, data: seq<Byte>)
    requires path in disk
    ensures DoAll(disk, Extensions(path, data)) == disk[path := disk[path] + data]
    decreases |data|
  {
    if data == [] {
      assert disk[path] + data == disk[path];
    } else {
      var next := disk[path := disk[path] + [data[0]]];
      assert Extensions(path, data)[1..] == Extensions(path, data[1..]);
      ExtendAll(next, path, data[1..]);
      assert disk[path] + [data[0]] + data[1..] == disk[path] + data;
    }
  }

  /** All its steps together are the whole write. */
  lemma WriteIsItsSteps(disk: Disk, path: Path, bars: seq<Bar>)
    requires path.ext == "bin"
    ensures DoAll(disk, WriteSteps(path, Encode(bars))) == Written(disk, path, bars)
  {
    hide Encode, Extensions;
    var tmp, data := TmpPath(path), Encode(bars);
    var filled := disk[tmp := data];
    DoOne(disk, CreateFile(tmp));
    var created: Disk := disk[tmp := []];
    ExtendAll(created, tmp, data);
    assert created[tmp] + data == data && created[tmp := data] == filled;
    DoOne(filled, RenameFile(tmp, path));
    DoAllAppend(disk, [CreateFile(tmp)], Extensions(tmp, data));
    DoAllAppend(disk, [CreateFile(tmp)] + Extensions(tmp, data), [RenameFile(tmp, path)]);
    assert filled[path := data] == disk[tmp := data][path := data];
  }

  ghost predicate SameFile(a: Disk, b: Disk, p: Path) {
    (p in a <==> p in b) && (p in a ==> a[p] == b[p])
  }

  /** The bar files of two disks are the same; leftover temporary files may differ. */
  ghost predicate SameFiles(a: Disk, b: Disk) {
    forall p: Path :: p.ext == "bin" ==> SameFile(a, b, p)
  }

  lemma {:induction false} StepsOnTmp(disk: Disk, steps: seq<DiskStep>)
    requires forall i :: 0 <= i < |steps| ==> steps[i].path.ext == "tmp" && !steps[i].RenameFile?
    ensures SameFiles(disk, DoAll(disk, steps))
    decreases |steps|
  {
    if steps != [] {
      var next := Do(disk, steps[0]);
      assert SameFiles(disk, next);
      StepsOnTmp(next, steps[1..]);
    }
  }

  /** A write is atomic: after a crash at any step of it, every bar file is as before,
      but for a crash past the last step, when all is as after the write. */
  lemma WriteAtomic(disk: Disk, path: Path, bars: seq<Bar>, n: nat)
    requires path.ext == "bin" && n <= |WriteSteps(path, Encode(bars))|
    ensures var steps := WriteSteps(path, Encode(bars));
      SameFiles(DoAll(disk, steps[..n]), if n < |steps| then disk else Written(disk, path, bars))
  {
    hide Encode;
    var steps := WriteSteps(path, Encode(bars));
    if n < |steps| {
      StepsOnTmp(disk, steps[..n]);
    } else {
      assert steps[..n] == steps;
      WriteIsItsSteps(disk, path, bars);
    }
  }

  // ---------------------------------------------------------------------------
  // The queue
  // ---------------------------------------------------------------------------

  function Execute(disk: Disk, cmd: BarWriteCmd): Disk {
    match cmd
    case Write(path, bars) => Written(disk, path, bars)
    case Flush => disk
  }

  /** The disk once every queued command has run. */
  function Drained(disk: Disk, queue: seq<BarWriteCmd>): Disk
    decreases |queue|
  {
    if queue == [] then disk else Drained(Execute(disk, queue[0]), queue[1..])
  }

  lemma {:induction false} DrainedAppend(disk: Disk, a: seq<BarWriteCmd>, b: seq<BarWriteCmd>)
    ensures Drained(disk, a + b) == Drained(Drained(disk, a), b)
    decreases |a|
  {
    if a == [] {
      assert a + b == b;
    } else {
      assert (a + b)[1..] == a[1..] + b;
      DrainedAppend(Execute(disk, a[0]), a[1..], b);
    }
  }

  ghost predicate BinQueue(queue: seq<BarWriteCmd>) {
    forall i :: 0 <= i < |queue| && queue[i].Write? ==> queue[i].path.ext == "bin"
  }

  function QueueSteps(queue: seq<BarWriteCmd>): seq<DiskStep>
    decreases |queue|
  {
    if queue == [] then []
    else (match queue[0]
          case Write(path, bars) => WriteSteps(path, Encode(bars))
          case Flush => []) + QueueSteps(queue[1..])
  }

  /** A crash while the writer works through its queue, at whatever step, leaves the
      bar files as if some of the oldest commands had run in full and no other. */
  lemma {:induction false} CrashLeavesWholeWrites(disk: Disk, queue: seq<BarWriteCmd>, n: nat) returns (m: nat)
    requires BinQueue(queue) && n <= |QueueSteps(queue)|
    ensures m <= |queue| && SameFiles(DoAll(disk, QueueSteps(queue)[..n]), Drained(disk, queue[..m]))
    decreases |queue|
  {
    hide WriteSteps, Encode, SameFiles, Written;
    if queue == [] {
      m := 0;
      SameDisk(disk);
    } else {
      var first, rest := QueueSteps([queue[0]]), queue[1..];
      assert [queue[0]][1..] == [] && QueueSteps([]) == [];
      assert first == match queue[0] { case Write(path, bars) => WriteSteps(path, Encode(bars)) case Flush => [] };
      assert QueueSteps(queue) == first + QueueSteps(rest);
      if n < |first| {
        WriteAtomic(disk, queue[0].path, queue[0].bars, n);
        assert QueueSteps(queue)[..n] == first[..n];
        m := 0;
      } else {
        OneCommand(disk, queue[0]);
        m := CrashLeavesWholeWrites(Execute(disk, queue[0]), rest, n - |first|);
        assert QueueSteps(queue)[..n] == first + QueueSteps(rest)[..n - |first|];
        DoAllAppend(disk, first, QueueSteps(rest)[..n - |first|]);
        assert queue[..m + 1][1..] == rest[..m];
        m := m + 1;
      }
    }
  }

  lemma SameDisk(disk: Disk)
    ensures SameFiles(disk, disk)
  {
  }

  lemma OneCommand(disk: Disk, cmd: BarWriteCmd)
    requires BinQueue([cmd])
    ensures DoAll(disk, QueueSteps([cmd])) == Execute(disk, cmd)
  {
    hide Written, WriteSteps, Encode;
    assert [cmd][0] == cmd && [cmd][1..] == [] && QueueSteps([]) == [];
    if cmd.Write? {
      WriteIsItsSteps(disk, cmd.path, cmd.bars);
      assert WriteSteps(cmd.path, Encode(cmd.bars)) + [] == WriteSteps(cmd.path, Encode(cmd.bars));
    } else {
      assert QueueSteps([cmd]) == [];
    }
  }

  /** The file of a key, read back. */
  function LoadFile(disk: Disk, key: Key): Option<seq<Bar>> {
    if FilePath(key) !in disk then None
    else match Decode(disk[FilePath(key)])
      case Loaded(bars) => Some(bars)
      case Failed(_) => None
  }

  /** So each file still loads as before or as a whole list that was written to it. */
  lemma CrashLoads(disk: Disk, queue: seq<BarWriteCmd>, n: nat) returns (m: nat)
    requires BinQueue(queue) && n <= |QueueSteps(queue)|
    ensures m <= |queue| && forall key ::
              LoadFile(DoAll(disk, QueueSteps(queue)[..n]), key) == LoadFile(Drained(disk, queue[..m]), key)
  {
    hide Drained, QueueSteps, Decode, Stem, Lower;
    m := CrashLeavesWholeWrites(disk, queue, n);
    var left := DoAll(disk, QueueSteps(queue)[..n]);
    forall key
      ensures LoadFile(left, key) == LoadFile(Drained(disk, queue[..m]), key)
    {
      assert SameFile(left, Drained(disk, queue[..m]), FilePath(key));
    }
  }

  /** What `load_many` returns: the keys whose file loads, in the order asked. */
  function Loadable(disk: Disk, keys: seq<Key>): seq<(Key, seq<Bar>)> {
    if keys == [] then []
    else
      var key := keys[|keys| - 1];
      Loadable(disk, keys[..|keys| - 1])
      + match LoadFile(disk, key) { case Some(bars) => [(key, bars)] case None => [] }
  }

  /** Exactly the keys asked for whose file is there and reads well, with its bars. */
  lemma {:induction false} LoadableExact(disk: Disk, keys: seq<Key>)
    ensures forall x :: x in Loadable(disk, keys) <==>
              x.0 in keys && FilePath(x.0) in disk && Decode(disk[FilePath(x.0)]) == Loaded(x.1)
  {
    hide Decode, FilePath;
    if keys != [] {
      LoadableExact(disk, keys[..|keys| - 1]);
      assert keys == keys[..|keys| - 1] + [keys[|keys| - 1]];
    }
  }

  /** In the order asked. */
  lemma {:induction false} LoadableAppend(disk: Disk, a: seq<Key>, b: seq<Key>)
    ensures Loadable(disk, a + b) == Loadable(disk, a) + Loadable(disk, b)
  {
    hide LoadFile;
    if b == [] {
      assert a + b == a;
    } else {
      LoadableAppend(disk, a, b[..|b| - 1]);
      assert (a + b)[..|a + b| - 1] == a + b[..|b| - 1];
    }
  }

  class BarStoreHandle {
    var disk: Disk
    var queue: seq<BarWriteCmd>

    /** Between calls only writes are queued: `FlushSync` waits for its answer. */
    ghost predicate Valid()
      reads this
    {
      forall i :: 0 <= i < |queue| ==> queue[i].Write?
    }

    constructor (disk: Disk)
      ensures Valid() && this.disk == disk && queue == []
    {
      this.disk := disk;
      queue := [];
    }

    method WriteAsync(key: Key, bars: seq<Bar>)
      requires Valid()
      modifies this`queue
      ensures Valid() && queue == old(queue) + [Write(FilePath(key), bars)]
    {
      queue := queue + [Write(FilePath(key), bars)];
    }

    /** The writer task takes one command. */
    method RunWriter() returns (answered: bool)
      requires queue != []
      modifies this
      ensures disk == Execute(old(disk), old(queue)[0]) && queue == old(queue)[1..]
      ensures answered <==> old(queue)[0].Flush?
      ensures answered ==> disk == old(disk)
    {
      var cmd := queue[0];
      queue := queue[1..];
      match cmd {
        case Write(path, bars) =>
          var buf := WriteBars(bars);
          var tmp := TmpPath(path);
          disk := disk[tmp := buf];
          disk := disk[path := disk[tmp]] - {tmp};
          answered := false;
        case Flush =>
          answered := true;
      }
    }

    /** Queue a flush and block until the writer has answered it. */
    method FlushSync()
      requires Valid()
      modifies this
      ensures Valid() && disk == Drained(old(disk), old(queue)) && queue == []
    {
      hide Execute;
      ghost var writes := queue;
      queue := queue + [Flush];
      var answered := false;
      while !answered
        invariant Drained(disk, writes) == Drained(old(disk), old(queue))
        invariant forall i :: 0 <= i < |writes| ==> writes[i].Write?
        invariant if answered then queue == writes == [] else queue == writes + [Flush]
        decreases |queue|, !answered
      {
        assert writes != [] ==> queue[0] == writes[0] && queue[1..] == writes[1..] + [Flush];
        answered := RunWriter();
        if !answered {
          writes := writes[1..];
        }
      }
    }

    method LoadMany(keys: seq<Key>) returns (result: seq<(Key, seq<Bar>)>)
      ensures result == Loadable(disk, keys)
    {
      result := [];
      for i := 0 to |keys|
        invariant result == Loadable(disk, keys[..i])
      {
        assert keys[..i + 1][..i] == keys[..i];
        var path := FilePath(keys[i]);
        if path in disk {
          var r := ReadBars(disk[path]);
          match r {
            case Loaded(bars) => result := result + [(keys[i], bars)];
            case Failed(_) =>
          }
        }
      }
      assert keys[..|keys|] == keys;
    }
  }
}
