/** Where the 4096 bytes at an address live: one file, or the end of one and the start of the next. */
module AddressTranslation {
  import opened Decimal
  import opened Storage

  const BLOCK_STORAGE_MAX_SIZE: int := 1073741824
  const PARTITION_SIZE: int := 1048576
  const MAX_FILES_IN_DIR: int := 256
  const MAX_DIR: int := 1024
  const BLOCKS: nat := MAX_DIR * MAX_FILES_IN_DIR
  const LEVEL_O_COUNT: int := 1024
  const LEVEL_1_COUNT: int := 256
  const SERVER_STORAGE_PATH: string := "/home/hemalkumar/hemal/CS-739-P3/storage/"

  datatype PathData = PathData(path: string, offset: nat, size: nat)

  predicate IsValidAddress(address: int) {
    0 <= address < BLOCK_STORAGE_MAX_SIZE
  }

  function GetDirectory(address: nat): string {
    ToString(address / PARTITION_SIZE)
  }

  function GetFile(address: nat): string {
    var newAddress := address - Stoi(GetDirectory(address)) * PARTITION_SIZE;
    StoiToString(address / PARTITION_SIZE);
    ToString(newAddress / BLOCK_SIZE)
  }

  function GetPath(dir: string, file: string): string {
    SERVER_STORAGE_PATH + dir + "/" + file
  }

  function GetOffset(address: nat): nat {
    address % BLOCK_SIZE
  }

  function GetAlignedAddress(address: nat): nat {
    address - address % BLOCK_SIZE
  }

  /** Signed, as in the source; `GetSizeIsRestOfBlock` shows that it is a size. */
  function GetSize(address: nat): int {
    var partitionStartAddr := Stoi(GetFile(GetAlignedAddress(address))) * BLOCK_SIZE;
    BLOCK_SIZE - (address % PARTITION_SIZE - partitionStartAddr)
  }

  /** The file of block `n`: 256 files to a directory. */
  function BlockPath(n: nat): string {
    GetPath(ToString(n / 256), ToString(n % 256))
  }

  /** The paths that `PrepareStorage` creates: so many directories under the root, with so many files each. */
  ghost predicate IsStoredBlock(p: string) {
    exists dirId: nat, fileId: nat ::
      dirId < LEVEL_O_COUNT && fileId < LEVEL_1_COUNT
      && p == SERVER_STORAGE_PATH + ToString(dirId) + "/" + ToString(fileId)
  }

  /** The extents of an address, by block number. */
  function Extents(address: int): seq<PathData> {
    if !IsValidAddress(address) then []
    else
      var n, o := address / BLOCK_SIZE, address % BLOCK_SIZE;
      if o == 0 then [PathData(BlockPath(n), 0, BLOCK_SIZE)]
      else [PathData(BlockPath(n), o, BLOCK_SIZE - o), PathData(BlockPath(n + 1), 0, o)]
  }

  lemma {:induction false} FileOfBlock(address: nat)
    requires address % BLOCK_SIZE == 0
    ensures GetDirectory(address) == ToString(address / BLOCK_SIZE / 256)
    ensures GetFile(address) == ToString(address / BLOCK_SIZE % 256)
  {
    var n := address / BLOCK_SIZE;
    assert address == n * 4096;
    assert address / PARTITION_SIZE == n / 256;
    StoiToString(address / PARTITION_SIZE);
    assert address - n / 256 * PARTITION_SIZE == n % 256 * 4096;
  }

  lemma {:induction false} GetSizeIsRestOfBlock(address: nat)
    ensures GetSize(address) == BLOCK_SIZE - address % BLOCK_SIZE
  {
    var aligned := GetAlignedAddress(address);
    var n := address / BLOCK_SIZE;
    assert aligned == n * 4096 && aligned / BLOCK_SIZE == n;
    FileOfBlock(aligned);
    StoiToString(n % 256);
    assert address % PARTITION_SIZE == n % 256 * 4096 + address % BLOCK_SIZE;
  }

  /** The server's own arithmetic, through directory and file numbers and their decimal text. */
  method GetAllFileNames(address: int) returns (res: seq<PathData>)
    ensures res == Extents(address)
    ensures |res| == if address < 0 || address >= 1073741824 then 0 else if address % 4096 == 0 then 1 else 2
  {
    hide GetPath, GetDirectory, GetFile, GetSize, ToString;
    res := [];
    if !IsValidAddress(address) {
      return;
    }
    var alignedAddress := GetAlignedAddress(address);
    FileOfBlock(alignedAddress);
    var dir := GetDirectory(alignedAddress);
    var file := GetFile(alignedAddress);
    var path := GetPath(dir, file);
    var offset := GetOffset(address);
    GetSizeIsRestOfBlock(address);
    var size := GetSize(address);
    res := res + [PathData(path, offset, size)];
    assert alignedAddress / BLOCK_SIZE == address / BLOCK_SIZE;

    if address % BLOCK_SIZE != 0 {
      alignedAddress := alignedAddress + BLOCK_SIZE;
      FileOfBlock(alignedAddress);
      assert alignedAddress / BLOCK_SIZE == address / BLOCK_SIZE + 1;
      dir := GetDirectory(alignedAddress);
      file := GetFile(alignedAddress);
      path := GetPath(dir, file);
      offset := 0;
      size := BLOCK_SIZE - size;
      res := res + [PathData(path, offset, size)];
    }
  }

  lemma {:induction false} DigitsEndAtSlash(a: string, b: string, c: string, d: string)
    requires AllDigits(a) && AllDigits(c) && a + "/" + b == c + "/" + d
    ensures a == c && b == d
  {
    var s, t := a + "/" + b, c + "/" + d;
    assert s[|a|] == '/' && t[|c|] == '/';
    assert forall i :: 0 <= i < |a| ==> s[i] == a[i];
    assert forall i :: 0 <= i < |c| ==> t[i] == c[i];
    assert |a| == |c|;
    assert a == s[..|a|] && c == t[..|c|];
    assert b == s[|a| + 1..] && d == t[|c| + 1..];
  }

  lemma {:induction false} BlockPathInjective(m: nat, n: nat)
    requires BlockPath(m) == BlockPath(n)
    ensures m == n
  {
    var k := |SERVER_STORAGE_PATH|;
    var a, b, c, d := ToString(m / 256), ToString(m % 256), ToString(n / 256), ToString(n % 256);
    assert BlockPath(m)[k..] == a + "/" + b;
    assert BlockPath(n)[k..] == c + "/" + d;
    DigitsEndAtSlash(a, b, c, d);
    ToStringInjective(m / 256, n / 256);
    ToStringInjective(m % 256, n % 256);
  }

  /** Block paths are block names, and carry neither a record delimiter nor a newline. */
  lemma {:induction false} BlockPathIsBlockName(n: nat)
    ensures IsBlockName(BlockPath(n))
    ensures ':' !in BlockPath(n) && '\n' !in BlockPath(n)
  {
    StoragePathIsClean();
    PathIsBlockName(SERVER_STORAGE_PATH, ToString(n / 256), ToString(n % 256));
  }

  lemma {:induction false} StoragePathIsClean()
    ensures SERVER_STORAGE_PATH != [] && SERVER_STORAGE_PATH[0] == '/'
    ensures ':' !in SERVER_STORAGE_PATH && '\n' !in SERVER_STORAGE_PATH
  {
  }

  lemma {:induction false} PathIsBlockName(root: string, dir: string, file: string)
    requires root != [] && root[0] == '/' && ':' !in root && '\n' !in root
    requires AllDigits(dir) && AllDigits(file) && file != []
    ensures var p := root + dir + "/" + file; IsBlockName(p) && ':' !in p && '\n' !in p
  {
    var p := root + dir + "/" + file;
    assert p[0] == root[0] && p[|p| - 1] == file[|file| - 1];
  }

  /** The number of bytes in the extents before the `i`th. */
  function SizeBefore(es: seq<PathData>, i: nat): nat
    requires i <= |es|
  {
    if i == 0 then 0 else SizeBefore(es, i - 1) + es[i - 1].size
  }

  /** Extents cover exactly [address, address + 4096), in order, without overlap, one block each. */
  lemma {:induction false} ExtentsTile(address: int)
    requires IsValidAddress(address)
    ensures var es := Extents(address);
            && 1 <= |es| <= 2
            && SizeBefore(es, |es|) == BLOCK_SIZE
            && forall i :: 0 <= i < |es| ==>
                 && es[i].size > 0 && es[i].offset + es[i].size <= BLOCK_SIZE
                 && exists n: nat :: es[i].path == BlockPath(n)
                                     && n * BLOCK_SIZE + es[i].offset == address + SizeBefore(es, i)
  {
    var es := Extents(address);
    var n, o := address / BLOCK_SIZE, address % BLOCK_SIZE;
    assert SizeBefore(es, 1) == es[0].size;
    assert es[0].path == BlockPath(n) && n * BLOCK_SIZE + es[0].offset == address + SizeBefore(es, 0);
    if o != 0 {
      assert SizeBefore(es, 2) == es[0].size + es[1].size;
      assert es[1].path == BlockPath(n + 1) && (n + 1) * BLOCK_SIZE + es[1].offset == address + SizeBefore(es, 1);
    }
  }

  lemma {:induction false} ExtentPathsDiffer(address: int)
    ensures var es := Extents(address);
            forall i, j :: 0 <= i < j < |es| ==> es[i].path != es[j].path
  {
    if IsValidAddress(address) && address % BLOCK_SIZE != 0 {
      var n := address / BLOCK_SIZE;
      if BlockPath(n) == BlockPath(n + 1) {
        BlockPathInjective(n, n + 1);
      }
    }
  }

  lemma {:induction false} SameNumbers(a: nat, b: nat, c: nat, d: nat)
    requires SERVER_STORAGE_PATH + ToString(a) + "/" + ToString(b) == SERVER_STORAGE_PATH + ToString(c) + "/" + ToString(d)
    ensures a == c && b == d
  {
    var k := |SERVER_STORAGE_PATH|;
    var s, t := ToString(a) + "/" + ToString(b), ToString(c) + "/" + ToString(d);
    assert (SERVER_STORAGE_PATH + ToString(a) + "/" + ToString(b))[k..] == s;
    assert (SERVER_STORAGE_PATH + ToString(c) + "/" + ToString(d))[k..] == t;
    hide ToString;
    DigitsEndAtSlash(ToString(a), ToString(b), ToString(c), ToString(d));
    ToStringInjective(a, c);
    ToStringInjective(b, d);
  }

  /** The created files are the first 262144 blocks. */
  lemma {:induction false} BlockIsStored(n: nat)
    ensures IsStoredBlock(BlockPath(n)) <==> n < BLOCKS
  {
    hide ToString;
    if n < BLOCKS {
      assert n / 256 < LEVEL_O_COUNT && n % 256 < LEVEL_1_COUNT;
      assert BlockPath(n) == SERVER_STORAGE_PATH + ToString(n / 256) + "/" + ToString(n % 256);
    }
    if dirId: nat, fileId: nat :|
      dirId < LEVEL_O_COUNT && fileId < LEVEL_1_COUNT
      && BlockPath(n) == SERVER_STORAGE_PATH + ToString(dirId) + "/" + ToString(fileId)
    {
      SameNumbers(n / 256, n % 256, dirId, fileId);
    }
  }

  lemma {:induction false} StoredIsBlock(p: string)
    requires IsStoredBlock(p)
    ensures exists n: nat :: n < BLOCKS && p == BlockPath(n)
  {
    hide ToString;
    var dirId: nat, fileId: nat :|
      dirId < LEVEL_O_COUNT && fileId < LEVEL_1_COUNT
      && p == SERVER_STORAGE_PATH + ToString(dirId) + "/" + ToString(fileId);
    var n := dirId * 256 + fileId;
    assert n / 256 == dirId && n % 256 == fileId;
    assert p == BlockPath(n);
  }

  /** Each extent lies in the file whose directory number is its megabyte and whose file number is its block within
      that, at its place within that block. */
  lemma {:induction false} ExtentsAreNamed(address: int, i: nat)
    requires IsValidAddress(address) && i < |Extents(address)|
    ensures var e, a := Extents(address)[i], address + SizeBefore(Extents(address), i);
            && e.path == SERVER_STORAGE_PATH + ToString(a / 1048576) + "/" + ToString(a % 1048576 / 4096)
            && e.offset == a % 4096
            && (a < 1073741824 <==> a / 1048576 < LEVEL_O_COUNT) && a % 1048576 / 4096 < LEVEL_1_COUNT
            && (IsStoredBlock(e.path) <==> a < 1073741824)
  {
    var a := address + SizeBefore(Extents(address), i);
    ExtentPlace(address, i);
    BlockNumbers(a);
    BlockIsStored(a / BLOCK_SIZE);
    PathOfBlock(a / BLOCK_SIZE);
    hide *;
  }

  lemma {:induction false} PathOfBlock(n: nat)
    ensures BlockPath(n) == SERVER_STORAGE_PATH + ToString(n / 256) + "/" + ToString(n % 256)
  {
    hide ToString;
  }

  lemma {:induction false} ExtentPlace(address: int, i: nat)
    requires IsValidAddress(address) && i < |Extents(address)|
    ensures var e, a := Extents(address)[i], address + SizeBefore(Extents(address), i);
            e.path == BlockPath(a / BLOCK_SIZE) && e.offset == a % BLOCK_SIZE
  {
    hide BlockPath;
    var es, n, o := Extents(address), address / BLOCK_SIZE, address % BLOCK_SIZE;
    assert SizeBefore(es, 0) == 0;
    if i == 1 {
      assert SizeBefore(es, 1) == BLOCK_SIZE - o;
      assert address + (BLOCK_SIZE - o) == (n + 1) * BLOCK_SIZE;
    }
  }

  lemma {:induction false} BlockNumbers(a: nat)
    ensures a / 4096 / 256 == a / 1048576 && a / 4096 % 256 == a % 1048576 / 4096
    ensures a < 1073741824 <==> a / 1048576 < LEVEL_O_COUNT
    ensures a < 1073741824 <==> a / 4096 < BLOCKS
    ensures a % 1048576 / 4096 < LEVEL_1_COUNT
  {
    var n := a / 4096;
    assert a == n * 4096 + a % 4096 && n == n / 256 * 256 + n % 256;
    assert a / 1048576 == n / 256;
    assert a % 1048576 == n % 256 * 4096 + a % 4096;
  }

  /** The last 4095 valid addresses reach a directory that does not exist; no others do. */
  lemma {:induction false} ExtentsAreStored(address: int)
    requires IsValidAddress(address)
    ensures (forall e :: e in Extents(address) ==> IsStoredBlock(e.path))
            <==> address <= BLOCK_STORAGE_MAX_SIZE - BLOCK_SIZE
  {
    var es := Extents(address);
    var n, o := address / BLOCK_SIZE, address % BLOCK_SIZE;
    assert es[0].path == BlockPath(n);
    BlockIsStored(n);
    BlockIsStored(n + 1);
    hide IsStoredBlock, BlockPath;
    if address <= BLOCK_STORAGE_MAX_SIZE - BLOCK_SIZE {
      forall e | e in es
        ensures IsStoredBlock(e.path)
      {
        assert e.path == BlockPath(n) || (o != 0 && e.path == BlockPath(n + 1));
      }
    } else {
      assert n + 1 == BLOCKS && o != 0;
      assert es[1] in es && es[1].path == BlockPath(n + 1);
    }
  }
}
