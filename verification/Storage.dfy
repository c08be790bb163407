/** The user page on the flash file system: storage.c. */
module Storage {
  import opened Bytes
  import opened Net
  import Decimal

  const EINVAL := -22
  const EIO := -5
  const ENODEV := -19
  const ENOENT := -2
  const EEXIST := -17
  const ENOTDIR := -20
  const EISDIR := -21
  const STORAGE_IO_CHUNK: nat := 512

  /** The answer to a status request. */
  function StatusText(mounted: bool, attempted: bool, mountRet: int, totalKib: nat, freeKib: nat): string
  {
    "{\"type\":\"fs.status\",\"ok\":" + (Decimal.BoolText(mounted) +
    (",\"attempted\":" + (Decimal.BoolText(attempted) +
    (",\"mounted\":" + (Decimal.BoolText(mounted) +
    (",\"mountRet\":" + (Decimal.DecInt(mountRet) +
    (",\"path\":\"/lfs\",\"totalKiB\":" + (Decimal.Dec(totalKib) +
    (",\"freeKiB\":" + (Decimal.Dec(freeKib) + "}")))))))))))
  }

  /** It always fits the 192-character buffer of the HTTP thread. */
  lemma StatusFits(mounted: bool, attempted: bool, mountRet: int, totalKib: nat, freeKib: nat)
    requires -0x8000_0000 <= mountRet <= 0 && totalKib < 0x1_0000_0000 && freeKib < 0x1_0000_0000
    ensures |StatusText(mounted, attempted, mountRet, totalKib, freeKib)| < 192
  {
    assert Decimal.Pow10(5) == 100000;
    assert Decimal.Pow10(10) == 100000 * Decimal.Pow10(5);
    Decimal.DecLength(-mountRet, 10);
    Decimal.DecLength(totalKib, 10);
    Decimal.DecLength(freeKib, 10);
    hide Decimal.Dec;
    assert |Decimal.DecInt(mountRet)| <= 11;
  }

  datatype Entry = Missing | Directory | File(data: seq<byte>)

  /** LittleFS as the firmware uses it: a directory, one file in it, and calls that may fail. */
  class FileSystem {
    var userDir: Entry
    var index: Entry
    ghost var mounts: nat
    /** How many calls have failed for a reason other than what the two entries are. */
    ghost var faults: nat

    constructor ()
      ensures mounts == 0 && faults == 0
    {
      userDir, index := Missing, Missing;
      mounts, faults := 0, 0;
    }

    /** A call that ends without a reason in the entries: it works, or is counted as a fault. */
    method Attempt() returns (ret: int)
      modifies this`faults
      ensures -0x8000_0000 <= ret <= 0 && faults == old(faults) + if ret < 0 then 1 else 0
    {
      ret :| -0x8000_0000 <= ret <= 0;
      if ret < 0 {
        faults := faults + 1;
      }
    }

    method Mount() returns (ret: int)
      modifies this`mounts, this`faults
      ensures -0x8000_0000 <= ret <= 0 && mounts == old(mounts) + 1 && faults == old(faults) + if ret < 0 then 1 else 0
    {
      ret := Attempt();
      mounts := mounts + 1;
    }

    method StatUserDir() returns (ret: int, isDir: bool)
      modifies this`faults
      ensures ret <= 0 && (ret == 0 ==> userDir != Missing && isDir == userDir.Directory?)
      ensures faults >= old(faults)
      ensures faults == old(faults) ==> ret == if userDir == Missing then ENOENT else 0
    {
      ret := Attempt();
      if ret == 0 && userDir == Missing {
        ret := ENOENT;
      }
      isDir := userDir.Directory?;
    }

    method MakeUserDir() returns (ret: int)
      modifies this`userDir, this`faults
      ensures ret <= 0 && userDir == if ret == 0 then Directory else old(userDir)
      ensures faults >= old(faults)
      ensures faults == old(faults) ==> (ret == 0 <==> old(userDir) == Missing)
    {
      ret := Attempt();
      if ret == 0 && userDir != Missing {
        ret := EEXIST;
      }
      if ret == 0 {
        userDir := Directory;
      }
    }

    method StatIndex() returns (ret: int, isFile: bool, size: nat)
      modifies this`faults
      ensures ret <= 0
      ensures ret == 0 ==> index != Missing && isFile == index.File? && (isFile ==> size == |index.data|)
      ensures faults >= old(faults)
      ensures faults == old(faults) ==> (ret == 0 <==> index != Missing)
    {
      ret := Attempt();
      if ret == 0 && index == Missing {
        ret := ENOENT;
      }
      isFile := index.File?;
      size := if isFile then |index.data| else 0;
    }

    /** fs_open with FS_O_CREATE | FS_O_TRUNC | FS_O_WRITE. */
    method OpenForWriting() returns (ret: int)
      modifies this`index, this`faults
      ensures ret <= 0 && index == if ret == 0 then File([]) else old(index)
      ensures faults >= old(faults)
      ensures faults == old(faults) ==> (ret == 0 <==> old(index) != Directory)
    {
      ret := Attempt();
      if ret == 0 && index == Directory {
        ret := EISDIR;
      }
      if ret == 0 {
        index := File([]);
      }
    }

    /** fs_open with FS_O_READ. */
    method OpenForReading() returns (ret: int)
      modifies this`faults
      ensures ret <= 0 && (ret == 0 ==> index.File?)
      ensures faults >= old(faults)
      ensures faults == old(faults) ==> (ret == 0 <==> index.File?)
    {
      ret := Attempt();
      if ret == 0 && !index.File? {
        ret := if index == Missing then ENOENT else EISDIR;
      }
    }

    /** fs_write: any number of octets of the request; none, or an error, is a fault. */
    method Write(data: seq<byte>, from: nat, max: nat) returns (written: int)
      requires index.File? && 0 < max && from + max <= |data|
      modifies this`index, this`faults
      ensures written <= max && index.File?
      ensures index.data == if written > 0 then old(index.data) + data[from..from + written] else old(index.data)
      ensures faults == old(faults) + if written <= 0 then 1 else 0
    {
      written :| written <= max;
      if written > 0 {
        index := File(index.data + data[from..from + written]);
      } else {
        faults := faults + 1;
      }
    }

    /** fs_read at a position: zero octets only at the end of the file. */
    method ReadAt(pos: nat, max: nat) returns (ret: int, chunk: seq<byte>)
      requires index.File? && pos <= |index.data| && max > 0
      modifies this`faults
      ensures ret <= max && |chunk| == if ret > 0 then ret else 0
      ensures ret > 0 ==> pos + ret <= |index.data| && chunk == index.data[pos..pos + ret]
      ensures ret == 0 ==> pos == |index.data|
      ensures faults == old(faults) + if ret < 0 then 1 else 0
    {
      ret := Attempt();
      chunk := [];
      if ret == 0 && pos < |index.data| {
        ret :| 1 <= ret <= max && pos + ret <= |index.data|;
        chunk := index.data[pos..pos + ret];
      }
    }

    /** fs_statvfs: block size and counts, in words of 32 bits. A failure only shows in the figures. */
    method Statvfs() returns (ret: int, blockSize: nat, blocks: nat, free: nat)
      ensures blockSize < 0x1_0000_0000 && blocks < 0x1_0000_0000 && free < 0x1_0000_0000
    {
      ret, blockSize, blocks, free := *, *, *, *;
      if blockSize >= 0x1_0000_0000 || blocks >= 0x1_0000_0000 || free >= 0x1_0000_0000 {
        blockSize, blocks, free := 0, 0, 0;
      }
    }

    method Sync() returns (ret: int)
      modifies this`faults
      ensures ret <= 0 && faults == old(faults) + if ret < 0 then 1 else 0
    {
      ret := Attempt();
    }
  }

  /** struct request_body_reader and request_body_read. */
  class BodyReader {
    const fd: Socket
    const pending: seq<byte>
    var pos: nat

    constructor (fd: Socket, pending: seq<byte>)
      ensures this.fd == fd && this.pending == pending && pos == 0
    {
      this.fd, this.pending, pos := fd, pending, 0;
    }

    ghost function Unread(): seq<byte>
      requires pos <= |pending|
      reads this, fd
    {
      pending[pos..] + fd.incoming
    }

    /** Some of the next octets of the body: pending ones first, then from the socket. */
    method Read(buf: array<byte>, max: nat) returns (ret: int, n: nat)
      requires pos <= |pending| && max <= buf.Length
      modifies this`pos, fd`incoming, fd`recvFailed, buf
      ensures pos <= |pending| && ret <= 0
      ensures ret == 0 ==> 1 <= n <= max && n <= |old(Unread())|
      ensures ret == 0 ==> buf[..n] == old(Unread())[..n] && Unread() == old(Unread())[n..]
      ensures ret < 0 ==> n == 0 && Unread() == old(Unread())
      ensures max > 0 ==> fd.recvFailed == (old(fd.recvFailed) || ret < 0)
    {
      if max == 0 {
        return EINVAL, 0;
      }
      n := CopyPending(buf, max);
      if n > 0 {
        return 0, n;
      }
      assert pending[pos..] == [];
      assert Unread() == fd.incoming;
      var got := fd.Recv(buf, 0, max);
      if got <= 0 {
        return if got == 0 then ECONNRESET else got, 0;
      }
      assert Unread() == fd.incoming;
      ret, n := 0, got;
    }

    method CopyPending(buf: array<byte>, max: nat) returns (n: nat)
      requires pos <= |pending| && 0 < max <= buf.Length
      modifies this`pos, buf
      ensures pos <= |pending| && n <= max && n <= |old(Unread())|
      ensures buf[..n] == old(Unread())[..n] && Unread() == old(Unread())[n..]
      ensures n == 0 ==> pos == |pending|
    {
      n := 0;
      while pos < |pending| && n < max
        invariant n <= max && pos == old(pos) + n <= |pending|
        invariant buf[..n] == pending[old(pos)..pos]
        decreases max - n
      {
        buf[n] := pending[pos];
        n := n + 1;
        pos := pos + 1;
      }
    }
  }

  class UserStorage {
    const fs: FileSystem
    var mountAttempted: bool
    var mountRet: int
    var mounted: bool
    var totalKib: nat
    var freeKib: nat

    constructor (fs: FileSystem)
      requires fs.mounts == 0
      ensures Valid() && this.fs == fs
    {
      this.fs := fs;
      mountAttempted := false;
      mountRet := ENODEV;
      mounted, totalKib, freeKib := false, 0, 0;
    }

    /** The volume is mounted at most once, and the first result is the one reported for ever. */
    ghost predicate Valid()
      reads this, fs
    {
      && (mountAttempted <==> fs.mounts == 1) && fs.mounts <= 1
      && -0x8000_0000 <= mountRet <= 0 && (mountAttempted || mountRet < 0)
      && mounted == (mountAttempted && mountRet == 0)
      && totalKib < 0x1_0000_0000 && freeKib < 0x1_0000_0000 && (!mounted ==> totalKib == freeKib == 0)
    }

    /** What storage_format_status_json prints. */
    ghost function StatusJson(): string
      reads this
    {
      StatusText(mounted, mountAttempted, mountRet, totalKib, freeKib)
    }

    /** update_space_locked: the 64-bit product, the division, and the cast to 32 bits. */
    method UpdateSpace()
      modifies this`totalKib, this`freeKib
      ensures totalKib < 0x1_0000_0000 && freeKib < 0x1_0000_0000 && (!mounted ==> totalKib == freeKib == 0)
    {
      totalKib, freeKib := 0, 0;
      if !mounted {
        return;
      }
      var ret, blockSize, blocks, free := fs.Statvfs();
      if ret < 0 {
        return;
      }
      totalKib := blockSize * blocks / 1024 % 0x1_0000_0000;
      freeKib := blockSize * free / 1024 % 0x1_0000_0000;
    }

    /** A file system call has failed since, or the volume could not be mounted. */
    ghost predicate Trouble(faultsBefore: nat)
      reads this, fs
    {
      fs.faults > faultsBefore || mountRet < 0
    }

    /** Faults only add up, and a mounted volume stays mounted. */
    twostate predicate Onward()
      reads this, fs
    {
      fs.faults >= old(fs.faults) && (old(mounted) ==> mounted)
    }

    method MountOnce() returns (ret: int)
      requires Valid()
      modifies this, fs`mounts, fs`faults
      ensures Valid() && mountAttempted && ret == mountRet && (fs.faults == old(fs.faults) || ret < 0)
      ensures old(mountAttempted) ==> mountRet == old(mountRet)
      ensures Onward()
    {
      if mountAttempted {
        return mountRet;
      }
      mountAttempted := true;
      ret := fs.Mount();
      mountRet := ret;
      mounted := ret == 0;
      if ret == 0 {
        UpdateSpace();
      }
    }

    /** storage_format_status_json: the mount is attempted, the figures are brought up to date, and
        the text tells the state. */
    method FormatStatusJson() returns (json: string)
      requires Valid()
      modifies this, fs`mounts, fs`faults
      ensures Valid() && mountAttempted
      ensures json == StatusJson() && |json| < 192
      ensures Onward()
    {
      hide Decimal.Dec, Decimal.DecInt;
      var _ := MountOnce();
      UpdateSpace();
      StatusFits(mounted, mountAttempted, mountRet, totalKib, freeKib);
      json := StatusText(mounted, mountAttempted, mountRet, totalKib, freeKib);
    }

    method UserIndexSize() returns (ret: int, len: nat)
      requires Valid()
      modifies this, fs`mounts, fs`faults
      ensures Valid() && ret <= 0
      ensures ret == 0 ==> fs.index.File? && len == |fs.index.data|
      ensures Onward()
      ensures !Trouble(old(fs.faults)) ==> (ret == 0 <==> fs.index.File?)
    {
      len := 0;
      ret := MountOnce();
      if ret < 0 {
        return;
      }
      var isFile, size;
      ret, isFile, size := fs.StatIndex();
      if ret < 0 {
        return;
      }
      if !isFile {
        return EISDIR, 0;
      }
      len := size;
    }

    /** storage_stream_user_index into a socket. */
    method StreamUserIndex(fd: Socket) returns (ret: int, ghost sent: nat)
      requires Valid()
      modifies this, fs`mounts, fs`faults, fd`outgoing, fd`sendFailed
      ensures Valid() && ret <= 0
      ensures ret == 0 ==> fs.index.File? && fd.outgoing == old(fd.outgoing) + fs.index.data
      ensures ret < 0 && sent == 0 ==> fd.outgoing == old(fd.outgoing)
      ensures ret < 0 && sent > 0 ==>
        fs.index.File? && sent <= |fs.index.data| && fd.outgoing == old(fd.outgoing) + fs.index.data[..sent]
      ensures Onward()
      ensures ret < 0 && !Trouble(old(fs.faults)) ==> fd.sendFailed || !fs.index.File?
    {
      sent := 0;
      ret := MountOnce();
      if ret < 0 {
        return;
      }
      ret := fs.OpenForReading();
      if ret < 0 {
        return;
      }
      ret, sent := SendFile(fd);
    }

    /** The loop over the open file. */
    method SendFile(fd: Socket) returns (ret: int, ghost sent: nat)
      requires fs.index.File?
      modifies fs`faults, fd`outgoing, fd`sendFailed
      ensures ret <= 0 && sent <= |fs.index.data| && fd.outgoing == old(fd.outgoing) + fs.index.data[..sent]
      ensures ret == 0 ==> sent == |fs.index.data|
      ensures fs.faults >= old(fs.faults)
      ensures ret < 0 && fs.faults == old(fs.faults) ==> fd.sendFailed
    {
      ghost var page := fs.index.data;
      var pos := 0;
      sent := 0;
      while true
        invariant fs.index == File(page) && fs.faults >= old(fs.faults)
        invariant sent == pos <= |page| && fd.outgoing == old(fd.outgoing) + page[..pos]
        decreases |page| - pos
      {
        var n, chunk := fs.ReadAt(pos, STORAGE_IO_CHUNK);
        if n < 0 {
          return n, sent;
        }
        if n == 0 {
          return 0, sent;
        }
        ghost var m;
        ret, m := fd.SendAll(chunk);
        TakeMore(page, pos, pos + n, m);
        sent := pos + m;
        if ret < 0 {
          return;
        }
        pos := pos + n;
      }
    }

    /** storage_write_user_index_stream: len octets of the body into the file. Of the body the
        reader has taken `taken` octets, and the file holds the first `kept` of them. */
    method WriteUserIndexStream(len: nat, reader: BodyReader)
      returns (ret: int, ghost truncated: bool, ghost taken: nat, ghost kept: nat)
      requires Valid() && reader.pos <= |reader.pending|
      modifies this, fs, reader`pos, reader.fd`incoming, reader.fd`recvFailed
      ensures Valid() && ret <= 0 && reader.pos <= |reader.pending|
      ensures kept <= taken <= len && taken <= |old(reader.Unread())|
      ensures reader.Unread() == old(reader.Unread())[taken..]
      ensures fs.index == if truncated then File(old(reader.Unread())[..kept]) else old(fs.index)
      ensures ret == 0 ==> truncated && taken == kept == len && mounted
      ensures !truncated ==> taken == 0
      ensures Onward()
      ensures ret < 0 && !Trouble(old(fs.faults)) ==>
        reader.fd.recvFailed || old(fs.userDir).File? || old(fs.index) == Directory
    {
      truncated, taken, kept := false, 0, 0;
      ret := PrepareDir();
      if ret < 0 {
        return;
      }
      ret := fs.OpenForWriting();
      if ret < 0 {
        return;
      }
      truncated := true;
      ret, taken, kept := CopyBody(len, reader);
      if ret < 0 {
        return;
      }
      ret := fs.Sync();
      if ret == 0 {
        UpdateSpace();
      }
    }

    /** The outer loop. When it ends without an error nothing remains, so the check of `remaining`
        that follows it in storage.c never fails. */
    method CopyBody(len: nat, reader: BodyReader) returns (ret: int, ghost taken: nat, ghost kept: nat)
      requires fs.index == File([]) && reader.pos <= |reader.pending|
      modifies fs`index, fs`faults, reader`pos, reader.fd`incoming, reader.fd`recvFailed
      ensures ret <= 0 && reader.pos <= |reader.pending|
      ensures kept <= taken <= len && taken <= |old(reader.Unread())|
      ensures reader.Unread() == old(reader.Unread())[taken..]
      ensures fs.index == File(old(reader.Unread())[..kept])
      ensures ret == 0 ==> taken == kept == len
      ensures fs.faults >= old(fs.faults)
      ensures ret < 0 && fs.faults == old(fs.faults) ==> reader.fd.recvFailed
    {
      ghost var body := reader.Unread();
      ret, taken, kept := 0, 0, 0;
      var buf := new byte[STORAGE_IO_CHUNK];
      var remaining := len;
      while remaining > 0
        invariant 0 <= remaining <= len && taken == kept == len - remaining <= |body| && ret == 0
        invariant reader.pos <= |reader.pending| && reader.Unread() == body[taken..]
        invariant fs.index == File(body[..kept]) && fs.faults >= old(fs.faults)
        decreases remaining
      {
        var requested := Min(remaining, STORAGE_IO_CHUNK);
        var n;
        ret, n := reader.Read(buf, requested);
        if ret < 0 {
          return;
        }
        DropMore(body, taken, n);
        taken := taken + n;
        if n == 0 || n > requested {
          return EIO, taken, kept;
        }
        ghost var w;
        ret, w := WriteChunk(buf[..n]);
        TakeMore(body, kept, kept + n, w);
        kept := kept + w;
        if ret < 0 {
          return;
        }
        remaining := remaining - n;
      }
    }

    /** The inner loop: one chunk into the file under short writes. */
    method WriteChunk(data: seq<byte>) returns (ret: int, ghost w: nat)
      requires fs.index.File?
      modifies fs`index, fs`faults
      ensures ret <= 0 && w <= |data| && (ret == 0 ==> w == |data|)
      ensures fs.index == File(old(fs.index.data) + data[..w])
      ensures fs.faults == old(fs.faults) + if ret < 0 then 1 else 0
    {
      ret, w := 0, 0;
      var writtenTotal := 0;
      while writtenTotal < |data|
        invariant writtenTotal == w <= |data| && ret == 0
        invariant fs.index == File(old(fs.index.data) + data[..w]) && fs.faults == old(fs.faults)
        decreases |data| - writtenTotal
      {
        var written := fs.Write(data, writtenTotal, |data| - writtenTotal);
        if written < 0 {
          return written, w;
        }
        if written == 0 {
          return EIO, w;
        }
        assert data[..w] + data[w..w + written] == data[..w + written];
        writtenTotal := writtenTotal + written;
        w := writtenTotal;
      }
    }

    /** Mounting and the directory checks before the file is truncated. */
    method PrepareDir() returns (ret: int)
      requires Valid()
      modifies this, fs`mounts, fs`faults, fs`userDir
      ensures Valid() && ret <= 0 && (ret == 0 ==> fs.userDir == Directory && mounted)
      ensures Onward()
      ensures !Trouble(old(fs.faults)) ==> (ret < 0 <==> old(fs.userDir).File?)
    {
      ret := MountOnce();
      if ret < 0 {
        return;
      }
      var isDir;
      ret, isDir := fs.StatUserDir();
      if ret == ENOENT {
        ret := fs.MakeUserDir();
      } else if ret == 0 && !isDir {
        ret := ENOTDIR;
      }
    }
  }
}
