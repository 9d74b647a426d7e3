/** The file system operations: they read blocks of the disk image into a buffer, change the buffer and write it back.
    */
module FileSystem {
  import opened Words
  import opened Blocks
  import opened Volumes
  import opened Reshaping
  import opened Appending

  datatype Status = OK | INVALID_ARGUMENT | INVALID_STATE | NOT_FOUND | ALREADY_EXISTS | OUT_OF_MEMORY

  const SUPER_BLOCK := 0

  class FileSystem {
    const image: array<Block>
    var buffer: Block
    ghost var shape: Shape

    ghost predicate Valid()
      reads this, image
    {
      Good(image[..], shape)
    }

    /** The name of a file. */
    ghost function NameOf(f: nat): seq<u8>
      reads image
    {
      NameIn(image[..], f)
    }

    /** The bytes of a file. */
    ghost function Data(f: nat): seq<u8>
      reads this, image
    {
      FileData(image[..], shape, f)
    }

    /** disk_read_block_buffer. */
    method ReadBlock(id: nat)
      requires id < image.Length
      modifies this`buffer
      ensures buffer == image[id]
    {
      buffer := image[id];
    }

    /** disk_write_block_buffer. */
    method WriteBlock(id: nat)
      requires id < image.Length
      modifies image
      ensures image[..] == old(image[..])[id := buffer]
    {
      image[id] := buffer;
    }

    // ----- reading -----

    /** disk_find_file: the file with the given name, or 0; `previous` becomes the file before the place of the name,
        and keeps its value if there is none. */
    method FindFile(name: seq<u8>, before: nat) returns (file: nat, previous: nat, ghost p: nat)
      requires Valid()
      modifies this`buffer
      ensures file != 0 <==> exists f :: f in shape.chains && NameOf(f) == name
      ensures file != 0 ==> file in shape.chains && NameOf(file) == name && p < |shape.files| && shape.files[p] == file
      ensures p <= |shape.files| && previous == if p == 0 then before else shape.files[p - 1]
      ensures file == 0 ==> Belongs(image[..], shape.files, p, name)
    {
      hide Good, Link, NextFile, Name, NameLength, Less, NameOk, NameIn, Belongs;
      ghost var img := image[..];
      GoodLists(img, shape);
      FirstFile(img, shape);
      ReadBlock(SUPER_BLOCK);
      file, previous, p := NextFile(buffer), before, 0;
      while file != 0
        invariant p <= |shape.files| && file == At(shape.files, p)
        invariant previous == if p == 0 then before else shape.files[p - 1]
        invariant forall i :: 0 <= i < p ==> Less(NameIn(img, shape.files[i]), name)
        decreases |shape.files| - p
      {
        FileSpot(img, shape, p);
        NameInIs(img, file);
        GoodFile(img, shape, file);
        ReadBlock(file);
        var order := CompareNames(Name(buffer), name);
        if order == EQUAL { return; }
        if order == GREATER {
          NotThere(img, shape, p, name);
          file := 0;
          return;
        }
        previous := file;
        file := NextFile(buffer);
        p := p + 1;
      }
      NoZeroFile(img, shape, p);
      NotThere(img, shape, p, name);
    }

    /** disk_get_file_size. */
    method GetFileSize(file: nat) returns (size: nat)
      requires Valid() && file in shape.chains
      modifies this`buffer
      ensures size == |Data(file)|
    {
      hide Good, Link, Next, NameLength, Rest;
      ghost var img, c, i := image[..], shape.chains[file], 0;
      GoodFile(img, shape, file);
      size := 0;
      ReadBlock(file);
      var header := 24 + NameLength(buffer);
      LastFits(img, c);
      while true
        invariant i < |c| && c[i] < image.Length && buffer == image[c[i]] && header == Header(img, c, i)
        invariant header <= End(img, c, i) && size + |Rest(img, c, i, header)| == |Content(img, c)|
        decreases |c| - i
      {
        ChainNext(img, c, i);
        RestUnfold(img, c, i, header);
        if Next(buffer) == 0 {
          NoZeroNext(img, c, i);
          return size + Link(buffer) - header;
        }
        size := size + (512 - header);
        ReadBlock(Next(buffer));
        header := 8;
        i := i + 1;
        if i + 1 < |c| { ChainNext(img, c, i); }
      }
    }

    /** disk_read_file: reads from the cursor (block, offset); returns how many bytes were missing. The cursor moves
        past the bytes read, except that its offset stays when bytes were missing. */
    method ReadFile(block0: nat, offset0: nat, size0: nat, ghost f: nat, ghost i0: nat)
        returns (missing: nat, block: nat, offset: nat, data: seq<u8>, ghost i: nat)
      requires Valid() && CursorIn(image[..], shape, f, i0, block0, offset0)
      modifies this`buffer
      ensures ReadDone(image[..], shape, f, i0, offset0, size0, missing, block, offset, data, i)
    {
      hide Good, Link, Next, NameLength, Rest, ReadDone, Reading, CursorIn;
      ghost var img, c := image[..], ChainOf(shape, f);
      var size: nat := size0;
      block, offset, data, i := block0, offset0, [], i0;
      ReadStart(img, shape, f, i0, block, offset, size);
      while true
        invariant Reading(img, c, i0, offset0, size0, i, block, offset, data, size)
        decreases |c| - i
      {
        ReadingUnfold(img, c, i0, offset0, size0, i, block, offset, data, size);
        ReadBlock(block);
        var available := if Next(buffer) == 0 then Link(buffer) - offset else 512 - offset;
        if available >= size {
          ReadEnough(img, shape, f, i0, offset0, size0, i, block, offset, data, size);
          data := data + buffer[offset..offset + size];
          offset := offset + size;
          return 0, block, offset, data, i;
        }
        if Next(buffer) == 0 {
          ReadShort(img, shape, f, i0, offset0, size0, i, block, offset, data, size);
          data := data + buffer[offset..offset + available];
          return size - available, block, offset, data, i;
        }
        ReadOn(img, c, i0, offset0, size0, i, block, offset, data, size);
        data := data + buffer[offset..offset + available];
        block := Next(buffer);
        offset := 8;
        size := size - available;
        i := i + 1;
      }
    }

    // ----- writing -----

    /** The loop of disk_write_file: fills the last block and links a free block to it, as long as the data does not
        fit in the last block and there is a free one. */
    method WriteFull(block: nat, src: seq<u8>, ghost f: nat)
        returns (last: nat, used: nat, rest: seq<u8>, oldFirst: u64, newFirst: u64, ghost k: nat, ghost done: seq<u8>)
      requires Valid() && f in shape.chains && |shape.chains[f]| > 0
        && block == shape.chains[f][|shape.chains[f]| - 1] < image.Length
      modifies this`buffer, image
      ensures k <= |shape.free| && Writing(old(image[..]), image[..], shape, f, k, used, done)
      ensures oldFirst == At(shape.free, 0) && newFirst == At(shape.free, k)
      ensures |Taken(shape, f, k)| > 0 && last == Taken(shape, f, k)[|Taken(shape, f, k)| - 1] < image.Length
        && buffer == image[last]
      ensures done + rest == old(Data(f)) + src && 8 <= used <= 512 && (|rest| <= 512 - used || newFirst == 0)
      ensures old(Room(block)) >= 0
      ensures if k == 0 then rest == src && used == 512 - old(Room(block))
              else |rest| > 0 && used == 8 && |src| == |rest| + old(Room(block)) + 504 * (k - 1)
    {
      hide Good, Link, Next, NameLength, Name, NextFile, Writing, SetWord, Put, Taken, Appended, HasContent, SameFile,
        AppendFrame, Rest, Content, LastGets, SetNext, NameIn;
      ghost var img, sh := image[..], shape;
      WriteStart(img, sh, f);
      FreeNext(img, sh, 0);
      ReadBlock(SUPER_BLOCK);
      oldFirst := Next(buffer);
      newFirst := oldFirst;
      last := block;
      ReadBlock(last);
      used := Link(buffer);
      var room: nat := 512 - used;
      rest := src;
      done := Data(f);
      k := 0;
      TakenNone(sh, f);
      while |rest| > room && newFirst != 0
        invariant k <= |sh.free| && image.Length == |img| && Writing(img, image[..], sh, f, k, used, done)
          && newFirst == At(sh.free, k)
        invariant |Taken(sh, f, k)| > 0 && last == Taken(sh, f, k)[|Taken(sh, f, k)| - 1] && last < image.Length
          && buffer == image[last]
        invariant done + rest == old(Data(f)) + src && used + room == 512 && 8 <= used <= 512
        invariant if k == 0 then rest == src && room == old(Room(block))
                  else |rest| > 0 && room == 504 && |src| == |rest| + old(Room(block)) + 504 * (k - 1)
        decreases |sh.free| - k
      {
        FreeNext(img, sh, k);
        FreshNext(img, sh, k);
        ghost var mid := image[..];
        buffer := SetNext(buffer, newFirst);
        buffer := Put(buffer, used, rest[..room]);
        WriteBlock(last);
        SetNextIs(mid[last], newFirst);
        WriteStep(img, mid, image[..], sh, f, k, used, done, rest[..room]);
        last := newFirst;
        ReadBlock(last);
        newFirst := Next(buffer);
        WritingUnfold(img, image[..], sh, f, k + 1, 8, done + rest[..room]);
        done := done + rest[..room];
        rest := rest[room..];
        used := 8;
        room := 504;
        k := k + 1;
      }
    }

    /** disk_write_file: appends `src` to the file whose last block is `block`; the last block of the file is
        returned. Without enough free blocks, what fits is written, but for the last block taken, whose 504 bytes stay
        what they were. */
    method WriteFile(block: nat, src: seq<u8>, ghost f: nat) returns (status: Status, last: nat, ghost k: nat)
      requires Valid() && f in shape.chains && |shape.chains[f]| > 0
        && block == shape.chains[f][|shape.chains[f]| - 1] < image.Length
      modifies this, image
      ensures Valid() && (status == OK || status == OUT_OF_MEMORY) && k <= |old(shape.free)|
        && shape == Appended(old(shape), f, k)
      ensures |shape.chains[f]| > 0 && last == shape.chains[f][|shape.chains[f]| - 1]
      ensures status == OK <==> |src| <= old(Room(block)) + 504 * |old(shape.free)|
      ensures k == if status != OK then |old(shape.free)| else if |src| <= old(Room(block)) then 0
        else (|src| - old(Room(block)) + 503) / 504
      ensures status == OK ==> Data(f) == old(Data(f)) + src
      ensures NameIn(image[..], f) == NameIn(old(image[..]), f)
      ensures status == OUT_OF_MEMORY && k == 0 ==> image[..] == old(image[..])
      ensures status == OUT_OF_MEMORY && k > 0 ==>
        var n := old(Room(block)) + 504 * (k - 1);
        n < |src| && Data(f) == old(Data(f)) + src[..n] + old(image[..])[last][8..]
      ensures forall g :: g in old(shape.chains) && g != f ==> SameFile(old(image[..]), image[..], old(shape.chains)[g])
    {
      hide Good, Link, Next, NameLength, Name, NextFile, Writing, SetWord, Put, Taken, Appended, HasContent, SameFile,
        AppendFrame, Rest, Content, LastGets, SetNext, NameIn;
      ghost var img, sh := image[..], shape;
      var used, rest, oldFirst, newFirst;
      ghost var done;
      last, used, rest, oldFirst, newFirst, k, done := WriteFull(block, src, f);
      status := OK;
      ghost var mid, more := image[..], rest;
      if |rest| <= 512 - used {
        buffer := SetWord(buffer, 0, used + |rest|);
        buffer := Put(buffer, used, rest);
        WriteBlock(last);
        LastPut(img, mid, image[..], sh, f, k, used, done, rest);
      } else {
        status := OUT_OF_MEMORY;
        more := if k == 0 then [] else mid[last][8..];
        FreshNext(img, sh, k);
        WritingUnfold(img, mid, sh, f, k, used, done);
        PrefixDone(done, rest, old(Data(f)), src);
        LastStale(img, mid, sh, f, k, used, done, more);
      }
      ghost var img1 := image[..];
      FreshNext(img, sh, k);
      SuperSame(img, mid, img1, sh, f, k, used, done, more);
      if newFirst != oldFirst {
        ReadBlock(SUPER_BLOCK);
        buffer := SetNext(buffer, newFirst);
        WriteBlock(SUPER_BLOCK);
        SetNextIs(img1[0], newFirst);
        TakenSpot(img, sh, f, k, 0);
        TakenSpot(img, sh, f, k, |Taken(sh, f, k)| - 1);
        SuperChange(mid, img1, image[..], Taken(sh, f, k), used, more);
      }
      WriteEnd(img, mid, image[..], sh, f, k, used, done, more);
      EndName(img, mid, image[..], sh, f, k, used, done, more);
      EndOthers(img, mid, image[..], sh, f, k, used, done, more);
      shape := Appended(sh, f, k);
      AppendedIs(sh, f, k);
      HasContentIs(image[..], Taken(sh, f, k), done + more);
    }

    function Room(block: nat): int
      reads image
      requires block < image.Length
    {
      512 - Link(image[block])
    }

    // ----- creating, clearing and deleting -----

    /** disk_create_file: an empty file in the first free block, at the place of its name in the list. */
    method CreateFile(name: seq<u8>) returns (status: Status, file: nat, ghost p: nat)
      requires Valid()
      modifies this, image
      ensures status == OK || status == INVALID_ARGUMENT || status == OUT_OF_MEMORY || status == ALREADY_EXISTS
      ensures status == INVALID_ARGUMENT <==> !ValidName(name)
      ensures status == OUT_OF_MEMORY <==> ValidName(name) && old(shape.free) == []
      ensures status == ALREADY_EXISTS <==>
        ValidName(name) && old(shape.free) != [] && exists f ::
          f in old(shape).chains && NameIn(old(image[..]), f) == name
      ensures status != OK ==> image[..] == old(image[..]) && shape == old(shape)
      ensures Valid()
      ensures status == OK ==>
        p <= |old(shape.files)| && Belongs(old(image[..]), old(shape.files), p, name)
        && file == old(shape.free)[0] && shape == Created(old(shape), p) && EmptyFile(image[..], file, name)
        && forall g :: g in old(shape).chains ==> SameFile(old(image[..]), image[..], old(shape).chains[g])
    {
      hide Good, Link, Next, NameLength, Name, NextFile, SetWord, Put, Less, NameOk, NameIn, Belongs, SameFile, Rest,
        Content, SetNext, ValidName, SameData, CreateFrame, ClearFrame, DeleteFrame, Created, Released, Deleted,
          Relinked, EmptyFile;
      file, p := 0, 0;
      var valid := CheckName(name);
      if !valid { return INVALID_ARGUMENT, file, p; }
      ghost var img, sh := image[..], shape;
      FreeNext(img, sh, 0);
      FreshNext(img, sh, 0);
      FirstFile(img, sh);
      ReadBlock(SUPER_BLOCK);
      var newFile := Next(buffer);
      if newFile == 0 { return OUT_OF_MEMORY, file, p; }
      var first := NextFile(buffer);
      var previous, next: u64 := 0, NextFile(buffer);
      while next != 0
        invariant p <= |sh.files| && next == At(sh.files, p) && previous == Before(sh.files, p) && image[..] == img
          && shape == sh
        invariant forall i :: 0 <= i < p ==> Less(NameIn(img, sh.files[i]), name)
        decreases |sh.files| - p
      {
        FileSpot(img, sh, p);
        NameInIs(img, next);
        GoodFile(img, sh, next);
        ReadBlock(next);
        var order := CompareNames(Name(buffer), name);
        if order == EQUAL { return ALREADY_EXISTS, file, p; }
        if order == GREATER { break; }
        previous := next;
        next := NextFile(buffer);
        p := p + 1;
      }
      if next == 0 { NoZeroFile(img, sh, p); }
      NotThere(img, sh, p, name);
      InsertFile(newFile, previous, next, first, name, p);
      file := newFile;
      status := OK;
    }

    /** Names have 1 to 488 characters that can be printed and are not spaces. */
    method CheckName(name: seq<u8>) returns (ok: bool)
      ensures ok == ValidName(name)
    {
      if |name| == 0 || |name| > 488 { return false; }
      var i := 0;
      while i < |name|
        invariant i <= |name| && forall j :: 0 <= j < i ==> 32 < name[j] < 127
      {
        if name[i] <= 32 || name[i] >= 127 { return false; }
        i := i + 1;
      }
      ok := true;
    }

    /** The changes to the image that make a file of the first free block. */
    method InsertFile(newFile: nat, previous: nat, next: u64, first: u64, name: seq<u8>, ghost p: nat)
      requires Valid() && shape.free != [] && newFile == shape.free[0] && ValidName(name)
      requires p <= |shape.files| && previous == Before(shape.files, p) && next == At(shape.files, p)
        && first == At(shape.files, 0)
      requires Belongs(image[..], shape.files, p, name)
      modifies this, image
      ensures Valid() && shape == Created(old(shape), p) && EmptyFile(image[..], newFile, name)
      ensures forall g :: g in old(shape).chains ==> SameFile(old(image[..]), image[..], old(shape).chains[g])
    {
      hide Good, Link, Next, NameLength, Name, NextFile, SetWord, Put, Less, NameOk, NameIn, Belongs, SameFile, Rest,
        Content, SetNext, ValidName, SameData, CreateFrame, ClearFrame, DeleteFrame, Created, Released, Deleted,
          Relinked, EmptyFile;
      ghost var img, sh := image[..], shape;
      FreeNext(img, sh, 0);
      FreeNext(img, sh, 1);
      FreshNext(img, sh, 1);
      FreeSpot(img, sh, 0);
      NameSize(name);
      PreviousSpot(img, sh, p);
      var newFirst := first;
      if previous != 0 {
        ReadBlock(previous);
        buffer := SetWord(buffer, 1, newFile);
        WriteBlock(previous);
      } else {
        newFirst := newFile;
      }
      ghost var img1 := image[..];
      ReadBlock(newFile);
      var newFree := Next(buffer);
      ghost var b0 := buffer;
      buffer := SetWord(buffer, 0, 24 + |name|);
      buffer := SetWord(buffer, 1, next);
      buffer := SetWord(buffer, 2, |name|);
      buffer := Put(buffer, 24, name);
      ghost var b := buffer;
      NewBlock(b0, next, name);
      WriteBlock(newFile);
      ghost var img2 := image[..];
      ReadBlock(SUPER_BLOCK);
      buffer := SetWord(buffer, 1, newFirst);
      ghost var s := buffer;
      buffer := SetNext(buffer, newFree);
      WriteBlock(SUPER_BLOCK);
      SetNextFileFacts(img2[0], newFirst);
      SetNextIs(s, newFree);
      InsertedFrame(img, img1, img2, image[..], sh, p, name, newFirst);
      CreatedGood(img, image[..], sh, p, name);
      shape := Created(sh, p);
    }

    /** disk_delete_file_blocks: links the last block of a chain, found from the block at place i, to the free list. */
    method DeleteBlocks(block: nat, ghost f: nat, ghost i0: nat)
      requires Valid() && f in shape.chains && i0 < |shape.chains[f]| && block == shape.chains[f][i0]
      modifies this`buffer, image
      ensures var last := shape.chains[f][|shape.chains[f]| - 1];
        last < image.Length && image[..] == old(image[..])[last := SetNext(old(image[..])[last], At(shape.free, 0))]
      ensures At(shape.free, 0) + 512 < TWO64
    {
      hide Good, Link, Next, NameLength, Name, NextFile, SetWord, Put, Less, NameOk, NameIn, Belongs, SameFile, Rest,
        Content, SetNext, ValidName, SameData, CreateFrame, ClearFrame, DeleteFrame, Created, Released, Deleted,
          Relinked, EmptyFile;
      ghost var img, sh, c, i := image[..], shape, shape.chains[f], i0;
      FreeNext(img, sh, 0);
      FreshNext(img, sh, 0);
      ReadBlock(SUPER_BLOCK);
      var firstFree := Next(buffer);
      var last := block;
      ChainSpot(img, sh, f, i);
      ReadBlock(last);
      GoodFile(img, sh, f);
      ChainNext(img, c, i);
      while Next(buffer) != 0
        invariant i < |c| && last == c[i] < image.Length && buffer == image[last] && image[..] == img
        invariant Next(buffer) == (if i + 1 < |c| then c[i + 1] else 0) && ChainLinked(img, c)
        decreases |c| - i
      {
        last := Next(buffer);
        i := i + 1;
        ChainSpot(img, sh, f, i);
        ChainNext(img, c, i);
        ReadBlock(last);
      }
      NoZeroNext(img, c, i);
      buffer := SetNext(buffer, firstFree);
      WriteBlock(last);
    }

    /** disk_clear_file: the file becomes empty, and its blocks but the first go to the free list. */
    method ClearFile(file: nat)
      requires Valid() && file in shape.chains
      modifies this, image
      ensures |old(shape).chains[file]| > 0 && shape == Released(old(shape), file, 1, old(shape.files))
      ensures Valid() && file in shape.chains && Data(file) == [] && NameIn(image[..], file) == NameIn(old(image[..]),
        file)
      ensures forall g ::
        g in old(shape).chains && g != file ==> SameFile(old(image[..]), image[..], old(shape).chains[g])
    {
      hide Good, Link, Next, NameLength, Name, NextFile, SetWord, Put, Less, NameOk, NameIn, Belongs, SameFile, Rest,
        Content, SetNext, ValidName, SameData, CreateFrame, ClearFrame, DeleteFrame, Created, Released, Deleted,
          Relinked, EmptyFile;
      ghost var img, sh, c := image[..], shape, shape.chains[file];
      GoodFile(img, sh, file);
      ChainNonempty(img, sh, file);
      ChainNext(img, c, 0);
      ChainSpot(img, sh, file, 0);
      ReadBlock(file);
      var newFree := Next(buffer);
      if newFree != 0 {
        NoChainEnd(img, sh, file, newFree);
        DeleteBlocks(newFree, file, 1);
        ghost var img1 := image[..];
        ReadBlock(SUPER_BLOCK);
        buffer := SetNext(buffer, newFree);
        WriteBlock(SUPER_BLOCK);
        ReleaseStep(img, img1, image[..], sh, file, newFree);
      } else {
        NoRelease(img, sh, file);
      }
      ghost var img2 := image[..];
      ReadBlock(file);
      buffer := SetWord(buffer, 0, 24 + NameLength(buffer));
      WriteBlock(file);
      ClearedFrame(img, img2, image[..], sh, file);
      ClearedGood(img, image[..], sh, file);
      ClearedName(img, image[..], sh, file);
      shape := Released(sh, file, 1, sh.files);
      ReleasedIs(sh, file);
      forall g | g in sh.chains && g != file ensures SameFile(img, image[..], sh.chains[g]) {
        ClearedOther(img, image[..], sh, file, g);
      }
    }

    /** disk_delete_file: `previous` is the file before it in the list, or 0. */
    method DeleteFile(file: nat, previous: nat, ghost p: nat)
      requires Valid() && p < |shape.files| && file == shape.files[p] && previous == Before(shape.files, p)
      modifies this, image
      ensures file in old(shape).chains && |old(shape).chains[file]| > 0
      ensures Valid() && shape == Deleted(old(shape), p)
      ensures forall g ::
        g in old(shape).chains && g != file ==> SameFile(old(image[..]), image[..], old(shape).chains[g])
    {
      hide Good, Link, Next, NameLength, Name, NextFile, SetWord, Put, Less, NameOk, NameIn, Belongs, SameFile, Rest,
        Content, SetNext, ValidName, SameData, CreateFrame, ClearFrame, DeleteFrame, Created, Released, Deleted,
          Relinked, EmptyFile;
      ghost var img, sh := image[..], shape;
      FileSpot(img, sh, p);
      PreviousSpot(img, sh, p);
      FirstFile(img, sh);
      ghost var c := sh.chains[file];
      ReadBlock(file);
      var next := NextFile(buffer);
      ReadBlock(SUPER_BLOCK);
      var first := NextFile(buffer);
      DeleteBlocks(file, file, 0);
      ghost var img1 := image[..];
      if previous != 0 {
        ReadBlock(previous);
        buffer := SetWord(buffer, 1, next);
        WriteBlock(previous);
      } else {
        first := next;
      }
      ghost var img2 := image[..];
      FileBound(img, sh, file);
      ReadBlock(SUPER_BLOCK);
      buffer := SetNext(buffer, file);
      ghost var s := buffer;
      buffer := SetWord(buffer, 1, first);
      WriteBlock(SUPER_BLOCK);
      SetNextIs(img2[0], file);
      SetNextFileFacts(s, first);
      RemovedFrame(img, img1, img2, image[..], sh, p);
      DeletedGood(img, image[..], sh, p);
      shape := Deleted(sh, p);
    }

    /** disk_format. */
    method Format()
      requires 1 < image.Length && image.Length + 512 < TWO64
      modifies this, image
      ensures Valid() && shape == Formatted(image.Length)
    {
      hide Good, Link, Next, NextFile, SetWord, SetNext, Formatted;
      ReadBlock(SUPER_BLOCK);
      ghost var b0 := buffer;
      buffer := SetNext(buffer, SUPER_BLOCK + 1);
      ghost var b1 := buffer;
      buffer := SetWord(buffer, 1, 0);
      WriteBlock(SUPER_BLOCK);
      SetNextIs(b0, SUPER_BLOCK + 1);
      SetNextFileFacts(b1, 0);
      var i := SUPER_BLOCK + 1;
      while i < image.Length
        invariant 1 <= i <= image.Length && NextFile(image[0]) == 0
        invariant forall b :: 0 <= b < i ==> Link(image[b]) == 512 + (if b + 1 < image.Length then b + 1 else 0)
      {
        ReadBlock(i);
        ModuloOf(i + 1, image.Length);
        SetNextIs(buffer, (i + 1) % image.Length);
        buffer := SetNext(buffer, (i + 1) % image.Length);
        ghost var img := image[..];
        WriteBlock(i);
        OneChanged(img, image[..], i);
        i := i + 1;
      }
      FormattedGood(image[..]);
      shape := Formatted(image.Length);
    }

    // ----- whole files -----

    /** Consecutive calls of disk_read_file from the start of a file, up to and including the first that comes short:
        they give the bytes of the file, in order, and all of them when one comes short. */
    method ReadChunks(file: nat, sizes: seq<nat>) returns (data: seq<u8>, short: bool)
      requires Valid() && file in shape.chains
      modifies this`buffer
      ensures data == Chunks(Data(file), sizes)
      ensures short <==> |Data(file)| < Sum(sizes)
      ensures short ==> data == Data(file)
    {
      hide Good, Link, Next, NameLength, Rest, Content;
      ghost var img, c, all := image[..], shape.chains[file], Data(file);
      StartOfFile(img, shape, file);
      ReadBlock(file);
      var block, offset: nat := file, 24 + NameLength(buffer);
      ghost var rest := all;
      ghost var i: nat := 0;
      data, short := [], false;
      var n := 0;
      ChunksStart(all, sizes);
      while n < |sizes| && !short
        invariant n <= |sizes| && CursorIn(img, shape, file, i, block, offset) && Data(file) == all && image[..] == img
        invariant !short ==> rest == Rest(img, c, i, offset) && ReadSoFar(all, sizes, n, data, rest)
        invariant short ==> data == all == Chunks(all, sizes) && |all| < Sum(sizes)
      {
        var missing, more;
        ghost var j;
        missing, block, offset, more, j := ReadFile(block, offset, sizes[n], file, i);
        i := j;
        ChunkStep(all, sizes, n, data, rest, more);
        if missing > 0 {
          short := true;
        } else {
          rest := rest[sizes[n]..];
        }
        data := data + more;
        n := n + 1;
      }
      if !short { ChunksEnd(all, sizes, data, rest); }
    }

    /** The last block of a file, and how many blocks the file and the free blocks are together. */
    ghost predicate InBlocks(file: nat, block: nat, blocks: nat)
      reads this
    {
      file in shape.chains && |shape.chains[file]| > 0 && block == shape.chains[file][|shape.chains[file]| - 1]
      && |shape.chains[file]| + |shape.free| == blocks
    }

    /** One piece of a file that is added: it is written exactly if it fits with what is there already. */
    method WritePiece(file: nat, block: nat, piece: seq<u8>, ghost name: seq<u8>, ghost blocks: nat)
        returns (status: Status, last: nat)
      requires Valid() && InBlocks(file, block, blocks) && NameOf(file) == name
      modifies this, image
      ensures Valid() && InBlocks(file, last, blocks) && NameOf(file) == name
      ensures status == if |old(Data(file))| + |piece| <= Capacity(name, blocks) then OK else OUT_OF_MEMORY
      ensures status == OK ==> Data(file) == old(Data(file)) + piece
      ensures forall g :: g in old(shape).chains && g != file ==>
        g in shape.chains && SameContent(old(image[..]), old(shape).chains[g], image[..], shape.chains[g])
    {
      hide Good, Link, NameLength, NameIn, Content, Appended, SameFile, SameContent;
      ghost var img, sh, k := image[..], shape, 0;
      ChainSpot(img, sh, file, |sh.chains[file]| - 1);
      RoomLeft(img, sh, file);
      status, last, k := WriteFile(block, piece, file);
      AppendedIs(sh, file, k);
      AppendedCount(sh, file, k);
      forall g | g in sh.chains && g != file
        ensures g in shape.chains && SameContent(img, sh.chains[g], image[..], shape.chains[g])
      {
        SameBoth(img, image[..], sh.chains[g]);
      }
    }

    /** Adds a file to the image and writes it in pieces, as the image maker does. It succeeds exactly if the name is
        valid and new, a block is free, and the pieces fit in all free blocks together, after the name. The new file
        then holds the pieces one after the other; the other files are what they were in any case. */
    method AddFile(name: seq<u8>, pieces: seq<seq<u8>>) returns (status: Status, file: nat)
      requires Valid()
      modifies this, image
      ensures Valid()
      ensures status == INVALID_ARGUMENT <==> !ValidName(name)
      ensures status == ALREADY_EXISTS <==>
        ValidName(name) && old(shape.free) != [] && old(Named(name))
      ensures status == OUT_OF_MEMORY <==>
        ValidName(name)
        && (old(shape.free) == [] || (!old(Named(name)) && |Concat(pieces)| > Capacity(name, |old(shape.free)|)))
      ensures status == OK <==>
        ValidName(name) && !old(Named(name)) && old(shape.free) != []
        && |Concat(pieces)| <= Capacity(name, |old(shape.free)|)
      ensures status == OK ==> file in shape.chains && NameOf(file) == name && Data(file) == Concat(pieces)
      ensures status == OK ==> forall g :: g in old(shape).chains ==> g != file && NameIn(old(image[..]), g) != name
      ensures forall g :: g in old(shape).chains ==>
        g in shape.chains && SameContent(old(image[..]), old(shape).chains[g], image[..], shape.chains[g])
    {
      hide Good, Link, NameLength, Name, NextFile, NameIn, Content, Created, Appended, EmptyFile, SameFile,
        SameContent, Belongs, Room, Concat;
      ghost var img, sh, p := image[..], shape, 0;
      GoodLists(img, sh);
      AllSame(img, sh);
      status, file, p := CreateFile(name);
      if status != OK { return; }
      ghost var files := sh.chains.Keys;
      forall g | g in files ensures g != file && NameIn(img, g) != name {
        NewName(img, sh, name, p, g);
      }
      forall g | g in files ensures g in shape.chains && SameContent(img, sh.chains[g], image[..], shape.chains[g]) {
        SameBoth(img, image[..], sh.chains[g]);
        CreatedChain(sh, p, g);
      }
      var block, n := file, 0;
      assert pieces[..0] == [];
      NoPieces();
      CreatedSelf(sh, p);
      EmptyIs(image[..], file, name);
      while n < |pieces|
        invariant n <= |pieces| && Valid() && file !in files && InBlocks(file, block, |sh.free|) && status == OK
        invariant NameOf(file) == name && Data(file) == Concat(pieces[..n])
        invariant forall g :: g in files ==>
          g in shape.chains && SameContent(img, sh.chains[g], image[..], shape.chains[g])
        invariant |Concat(pieces[..n])| <= Capacity(name, |sh.free|)
      {
        ghost var before, shape0 := image[..], shape;
        ConcatSnoc(pieces, n);
        ConcatPart(pieces, n + 1);
        status, block := WritePiece(file, block, pieces[n], name, |sh.free|);
        forall g | g in files ensures g in shape.chains && SameContent(img, sh.chains[g], image[..], shape.chains[g]) {
          SameTrans(img, sh.chains[g], before, shape0.chains[g], image[..], shape.chains[g]);
        }
        if status != OK { return; }
        n := n + 1;
      }
      assert pieces[..n] == pieces;
    }

    /** There is a file with the name. */
    ghost predicate Named(name: seq<u8>)
      reads this, image
    {
      exists f: nat :: f in shape.chains && NameIn(image[..], f) == name
    }
  }

  /** How much a new file can hold: all free blocks, without their links and the name. */
  function Capacity(name: seq<u8>, free: nat): int { 488 - |name| + 504 * (free - 1) }

  /** What a file holds and the room after it fill its blocks. */
  lemma RoomLeft(img: Image, sh: Shape, f: nat)
    requires Good(img, sh) && f in sh.chains
    ensures var c := sh.chains[f];
      |c| > 0 && c[|c| - 1] < |img|
      && |FileData(img, sh, f)| + 512 - Link(img[c[|c| - 1]]) == 488 - |NameIn(img, f)| + 504 * (|c| - 1)
  {
    hide Good, ChainLinked, NameLength, Link, Rest;
    var c := sh.chains[f];
    GoodFile(img, sh, f);
    NameInIs(img, f);
    StartOfFile(img, sh, f);
    LastFits(img, c);
    RestLength(img, c, 0, Header(img, c, 0));
  }

  lemma {:induction false} RestLength(img: Image, c: seq<nat>, i: nat, offset: nat)
    requires ChainLinked(img, c) && i < |c| && offset <= End(img, c, i)
    ensures |c| > 0 && c[|c| - 1] < |img|
    ensures |Rest(img, c, i, offset)| + offset == Link(img[c[|c| - 1]]) + 504 * (|c| - 1 - i)
    decreases |c| - i
  {
    hide Link, NameLength;
    LastFits(img, c);
    if i + 1 < |c| {
      RestLength(img, c, i + 1, 8);
    }
  }

  lemma AllSame(img: Image, sh: Shape)
    requires Good(img, sh)
    ensures forall g :: g in sh.chains ==> SameContent(img, sh.chains[g], img, sh.chains[g])
  {
    hide Good, ChainLinked, Content, Name, NameLength;
    forall g | g in sh.chains ensures SameContent(img, sh.chains[g], img, sh.chains[g]) {
      StartOfFile(img, sh, g);
    }
  }

  lemma NoPieces()
    ensures Concat([]) == []
  {
  }

  /** The first pieces are not longer than all of them. */
  lemma {:induction false} ConcatPart(pieces: seq<seq<u8>>, n: nat)
    requires n <= |pieces|
    ensures |Concat(pieces[..n])| <= |Concat(pieces)|
    decreases |pieces| - n
  {
    hide Concat;
    if n < |pieces| {
      ConcatSnoc(pieces, n);
      ConcatPart(pieces, n + 1);
    } else {
      assert pieces[..n] == pieces;
    }
  }

  lemma AppendedCount(sh: Shape, f: nat, k: nat)
    requires f in sh.chains && k <= |sh.free|
    ensures var sh1 := Appended(sh, f, k);
      f in sh1.chains && |sh1.chains[f]| + |sh1.free| == |sh.chains[f]| + |sh.free|
  {
  }

  lemma FirstFile(img: Image, sh: Shape)
    requires Good(img, sh)
    ensures |img| > 0 && NextFile(img[0]) == At(sh.files, 0)
  {
    hide Owned, FreeLinked, Sorted, FileOk;
  }

  lemma NameInIs(img: Image, f: nat)
    requires f < |img| && NameOk(img[f])
    ensures NameLength(img[f]) <= 488 && NameIn(img, f) == Name(img[f])
  {
  }

  lemma NoZeroFile(img: Image, sh: Shape, p: nat)
    requires Good(img, sh) && p <= |sh.files| && At(sh.files, p) == 0
    ensures p == |sh.files|
  {
    hide Good;
    if p < |sh.files| { FileSpot(img, sh, p); }
  }

  lemma NoZeroNext(img: Image, c: seq<nat>, i: nat)
    requires ChainLinked(img, c) && i < |c| && Next(img[c[i]]) == 0
    ensures i + 1 == |c|
  {
    if i + 1 < |c| { NextPositive(img, c, i); }
  }

  lemma NextPositive(img: Image, c: seq<nat>, i: nat)
    requires ChainLinked(img, c) && i + 1 < |c|
    ensures Next(img[c[i]]) > 0
  {
    assert LinksOn(img, c, i);
  }

  /** Where the name would be, the search can stop. */
  lemma NotThere(img: Image, sh: Shape, p: nat, name: seq<u8>)
    requires Good(img, sh) && p <= |sh.files|
    requires forall i :: 0 <= i < p ==> Less(NameIn(img, sh.files[i]), name)
    requires p < |sh.files| ==> Less(name, NameIn(img, sh.files[p]))
    ensures Belongs(img, sh.files, p, name)
    ensures forall f :: f in sh.chains ==> NameIn(img, f) != name
  {
    hide Link, NextFile, NameIn, Less, NameOk, Owned, FreeLinked, FilesLinked, Good, Sorted;
    forall i | p <= i < |sh.files| ensures Less(name, NameIn(img, sh.files[i])) {
      if i > p {
        SortedNames(img, sh, p, i);
        LessTrans(name, NameIn(img, sh.files[p]), NameIn(img, sh.files[i]));
      }
    }
    forall f | f in sh.chains ensures NameIn(img, f) != name {
      GoodFile(img, sh, f);
      var i :| 0 <= i < |sh.files| && sh.files[i] == f;
      if i < p { LessNotBoth(NameIn(img, f), name); } else { LessNotBoth(name, NameIn(img, f)); }
    }
  }

  lemma SortedNames(img: Image, sh: Shape, i: nat, j: nat)
    requires Good(img, sh) && i < j < |sh.files|
    ensures Less(NameIn(img, sh.files[i]), NameIn(img, sh.files[j]))
  {
    hide Owned, FreeLinked, FilesLinked, FileOk, ValidName, Less, Name;
    assert sh.files[i] < |img| && NameOk(img[sh.files[i]]) && sh.files[j] < |img| && NameOk(img[sh.files[j]]);
  }

  /** The last block of a chain is used at least up to its header. */
  lemma LastFits(img: Image, c: seq<nat>)
    requires ChainLinked(img, c)
    ensures Header(img, c, |c| - 1) <= Link(img[c[|c| - 1]]) <= 512
    ensures forall i :: 0 <= i < |c| ==> c[i] < |img| && 8 <= End(img, c, i) <= 512
    ensures NameLength(img[c[0]]) <= 488 ==> Header(img, c, 0) <= End(img, c, 0)
  {
  }

  lemma RestUnfold(img: Image, c: seq<nat>, i: nat, offset: nat)
    requires ChainLinked(img, c) && i < |c| && offset <= End(img, c, i)
    ensures c[i] < |img| && (i + 1 == |c| ==>
      Link(img[c[i]]) <= 512 && Rest(img, c, i, offset) == img[c[i]][offset..Link(img[c[i]])])
    ensures i + 1 < |c| ==>
      8 <= End(img, c, i + 1) && Rest(img, c, i, offset) == img[c[i]][offset..] + Rest(img, c, i + 1, 8)
  {
    hide Link, NameLength;
  }

  function ChainOf(sh: Shape, f: nat): seq<nat> { if f in sh.chains then sh.chains[f] else [] }

  /** A cursor is in block i of a file, not after the end of its data. */
  ghost predicate CursorIn(img: Image, sh: Shape, f: nat, i: nat, block: nat, offset: nat) {
    var c := ChainOf(sh, f);
    f in sh.chains && ChainLinked(img, c) && i < |c| && c[i] == block && c[i] < |img| && offset <= End(img, c, i)
  }

  /** What reading `size` bytes from a cursor gives, and where the cursor is then: after them, or, when bytes are
      missing, in the last block, where it was if it was there already. */
  ghost predicate ReadDone(img: Image, sh: Shape, f: nat, i0: nat, offset0: nat, size: nat, missing: nat, block: nat,
                           offset: nat, data: seq<u8>, i: nat) {
    var c := ChainOf(sh, f);
    && f in sh.chains && ChainLinked(img, c) && i0 <= i < |c| && c[i0] < |img| && c[i] < |img|
    && offset0 <= End(img, c, i0)
    && block == c[i] && offset <= End(img, c, i) && offset >= (if i == i0 then offset0 else 8)
    && var rest := Rest(img, c, i0, offset0);
      if size <= |rest| then missing == 0 && data == rest[..size] && Rest(img, c, i, offset) == rest[size..]
      else missing == size - |rest| && data == rest && i + 1 == |c| && offset == if i == i0 then offset0 else 8
  }

  /** The loop of a read: `data` was read, and `size` bytes are still wanted from the cursor. */
  ghost predicate Reading(img: Image, c: seq<nat>, i0: nat, offset0: nat, size0: nat, i: nat, block: nat, offset: nat,
                          data: seq<u8>, size: nat) {
    && ChainLinked(img, c) && i0 <= i < |c| && c[i0] < |img| && c[i] < |img| && block == c[i]
    && offset0 <= End(img, c, i0)
    && offset <= End(img, c, i) <= 512 && offset == (if i == i0 then offset0 else 8)
    && Rest(img, c, i0, offset0) == data + Rest(img, c, i, offset) && size + |data| == size0
  }

  lemma ReadStart(img: Image, sh: Shape, f: nat, i: nat, block: nat, offset: nat, size: nat)
    requires CursorIn(img, sh, f, i, block, offset)
    ensures Reading(img, ChainOf(sh, f), i, offset, size, i, block, offset, [], size)
  {
    hide ChainLinked, Link, Rest;
    var c := ChainOf(sh, f);
    LastFits(img, c);
    assert [] + Rest(img, c, i, offset) == Rest(img, c, i, offset);
  }

  lemma ReadingUnfold(img: Image, c: seq<nat>, i0: nat, offset0: nat, size0: nat, i: nat, block: nat, offset: nat,
                      data: seq<u8>, size: nat)
    requires Reading(img, c, i0, offset0, size0, i, block, offset, data, size)
    ensures block < |img| && i < |c| && (if Next(img[block]) == 0 then offset <= Link(img[block]) <= 512
      else offset <= 512)
  {
    hide ChainLinked, Rest, Link;
    ChainNext(img, c, i);
    if Next(img[block]) == 0 { NoZeroNext(img, c, i); }
  }

  lemma ReadEnough(img: Image, sh: Shape, f: nat, i0: nat, offset0: nat, size0: nat, i: nat, block: nat, offset: nat,
                   data: seq<u8>, size: nat)
    requires f in sh.chains && Reading(img, ChainOf(sh, f), i0, offset0, size0, i, block, offset, data, size)
    requires block < |img| && size <= (if Next(img[block]) == 0 then Link(img[block]) - offset else 512 - offset)
    ensures offset + size <= 512 && ReadDone(img, sh, f, i0, offset0, size0, 0, block, offset + size,
      data + img[block][offset..offset + size], i)
  {
    hide ChainLinked, Rest, Link, Next;
    var c := ChainOf(sh, f);
    ChainNext(img, c, i);
    if Next(img[block]) == 0 { NoZeroNext(img, c, i); }
    if i + 1 < |c| { NextPositive(img, c, i); }
    RestAfter(img, c, i, offset, size);
    TakenPart(data, Rest(img, c, i, offset), size);
  }

  lemma TakenPart(data: seq<u8>, rest: seq<u8>, size: nat)
    requires size <= |rest|
    ensures (data + rest)[..|data| + size] == data + rest[..size] && (data + rest)[|data| + size..] == rest[size..]
  {
  }

  lemma ReadShort(img: Image, sh: Shape, f: nat, i0: nat, offset0: nat, size0: nat, i: nat, block: nat, offset: nat,
                  data: seq<u8>, size: nat)
    requires f in sh.chains && Reading(img, ChainOf(sh, f), i0, offset0, size0, i, block, offset, data, size)
    requires block < |img| && Next(img[block]) == 0 && offset <= Link(img[block]) <= 512
      && size > Link(img[block]) - offset
    ensures var available := Link(img[block]) - offset;
      ReadDone(img, sh, f, i0, offset0, size0, size - available, block, offset,
        data + img[block][offset..offset + available], i)
  {
    hide ChainLinked, Rest, Link, Next;
    var c := ChainOf(sh, f);
    NoZeroNext(img, c, i);
    RestUnfold(img, c, i, offset);
  }

  lemma ReadOn(img: Image, c: seq<nat>, i0: nat, offset0: nat, size0: nat, i: nat, block: nat, offset: nat,
               data: seq<u8>, size: nat)
    requires Reading(img, c, i0, offset0, size0, i, block, offset, data, size) && block < |img|
      && Next(img[block]) != 0 && offset <= 512
    requires size > 512 - offset
    ensures i + 1 < |c|
    ensures Reading(img, c, i0, offset0, size0, i + 1, Next(img[block]), 8,
      data + img[block][offset..offset + (512 - offset)], size - (512 - offset))
  {
    hide ChainLinked, Rest, Link, Next;
    ChainNext(img, c, i);
    LastFits(img, c);
    RestUnfold(img, c, i, offset);
    var b := img[block];
    assert b[offset..offset + (512 - offset)] == b[offset..];
    Assoc(data, b[offset..], Rest(img, c, i + 1, 8));
  }

  lemma Assoc(x: seq<u8>, y: seq<u8>, z: seq<u8>)
    ensures x + (y + z) == x + y + z
  {
  }

  lemma RestAfter(img: Image, c: seq<nat>, i: nat, offset: nat, size: nat)
    requires ChainLinked(img, c) && i < |c| && offset + size <= End(img, c, i)
    ensures c[i] < |img| && offset + size <= 512 && |Rest(img, c, i, offset)| >= size
    ensures Rest(img, c, i, offset)[..size] == img[c[i]][offset..offset + size]
    ensures Rest(img, c, i, offset)[size..] == Rest(img, c, i, offset + size)
  {
    hide Link, NameLength, Rest;
    RestUnfold(img, c, i, offset);
    RestUnfold(img, c, i, offset + size);
    LastFits(img, c);
    var b := img[c[i]];
    if i + 1 < |c| {
      assert b[offset..] == b[offset..offset + size] + b[offset + size..];
    } else {
      assert b[offset..Link(b)] == b[offset..offset + size] + b[offset + size..Link(b)];
    }
  }

  lemma ModuloOf(i: nat, n: nat)
    requires 0 < i <= n
    ensures i % n == if i < n then i else 0
  {
  }

  lemma OneChanged(img: Image, img1: Image, i: nat)
    requires i < |img| && |img1| == |img| && img1 == img[i := img1[i]]
    ensures forall b :: 0 <= b < |img| && b != i ==> img1[b] == img[b]
  {
  }

  lemma NameSize(name: seq<u8>)
    requires ValidName(name)
    ensures 0 < |name| <= 488
  {
  }

  /** The block that links to place p of the list of files. */
  lemma PreviousSpot(img: Image, sh: Shape, p: nat)
    requires Good(img, sh) && p <= |sh.files|
    ensures Before(sh.files, p) < |img| && (Before(sh.files, p) == 0 <==> p == 0)
    ensures forall i :: 0 <= i < |sh.free| ==> sh.free[i] != Before(sh.files, p)
    ensures p < |sh.files| ==>
      var c := sh.chains[sh.files[p]];
        |c| > 0 && Before(sh.files, p) != c[|c| - 1] && Before(sh.files, p) != sh.files[p]
  {
    hide Good;
    FirstFile(img, sh);
    if p > 0 { FileSpot(img, sh, p - 1); }
    forall i | 0 <= i < |sh.free| ensures sh.free[i] != Before(sh.files, p) {
      FreeSpot(img, sh, i);
    }
    if p < |sh.files| {
      FileSpot(img, sh, p);
      var f := sh.files[p];
      ChainSpot(img, sh, f, |sh.chains[f]| - 1);
    }
  }

  /** The block of a new file, before it has data. */
  lemma NewBlock(b0: Block, next: u64, name: seq<u8>)
    requires |name| <= 488
    ensures var b := Put(SetWord(SetWord(SetWord(b0, 0, 24 + |name|), 1, next), 2, |name|), 24, name);
      Link(b) == 24 + |name| && NextFile(b) == next && NameLength(b) == |name| && Name(b) == name
  {
    var b1 := SetWord(b0, 0, 24 + |name|);
    var b2 := SetWord(b1, 1, next);
    var b3 := SetWord(b2, 2, |name|);
    hide SetWord, Word;
    WordOfSet(b0, 0, 24 + |name|);
    WordOfSet(b1, 1, next);
    WordOfSetOther(b1, 1, next, 0);
    WordOfSet(b2, 2, |name|);
    WordOfSetOther(b2, 2, |name|, 0);
    WordOfSetOther(b2, 2, |name|, 1);
    PutFacts(b3, 24, name);
  }

  /** The image after the insertion of a file: the block before it, its own block and the superblock have changed. */
  lemma InsertedFrame(img: Image, img1: Image, img2: Image, img3: Image, sh: Shape, p: nat, name: seq<u8>,
                      newFirst: nat)
    requires Good(img, sh) && sh.free != [] && p <= |sh.files| && |name| <= 488
    requires Before(sh.files, p) < |img| && sh.free[0] < |img| && |img2| == |img| && |img3| == |img|
    requires img1 == if p == 0 then img
      else img[Before(sh.files, p) := SetWord(img[Before(sh.files, p)], 1, sh.free[0])]
    requires img2 == img1[sh.free[0] := img2[sh.free[0]]] && img3 == img2[0 := img3[0]]
    requires var b := img2[sh.free[0]];
      Link(b) == 24 + |name| && NextFile(b) == At(sh.files, p) && NameLength(b) == |name| && Name(b) == name
    requires newFirst == (if p == 0 then sh.free[0] else At(sh.files, 0))
    requires NextFile(img3[0]) == newFirst && Link(img3[0]) == 512 + At(sh.free, 1)
    ensures CreateFrame(img, img3, sh, p, name)
  {
    hide Good, Link, NextFile, NameLength, Name, SetWord;
    FreeSpot(img, sh, 0);
    PreviousSpot(img, sh, p);
    FirstFile(img, sh);
    FileSize(img, sh);
    if p > 0 {
      var b := Before(sh.files, p);
      SetNextFileFacts(img[b], sh.free[0]);
      SetTail(img[b], sh.free[0]);
    }
  }

  lemma SetTail(b: Block, v: u64)
    ensures SetWord(b, 1, v)[16..] == b[16..]
  {
    SetWordFrame(b, 1, v);
  }

  lemma RemovedFrame(img: Image, img1: Image, img2: Image, img3: Image, sh: Shape, p: nat)
    requires |sh.owner| == |img| > 0 && |img1| == |img| && |img2| == |img| && |img3| == |img| && p < |sh.files|
    requires sh.files[p] in sh.chains && |sh.chains[sh.files[p]]| > 0 && sh.files[p] < |img|
      && Before(sh.files, p) < |img|
    requires At(sh.free, 0) + 512 < TWO64 && sh.chains[sh.files[p]][|sh.chains[sh.files[p]]| - 1] < |img|
    requires var l := sh.chains[sh.files[p]][|sh.chains[sh.files[p]]| - 1];
      img1 == img[l := SetNext(img[l], At(sh.free, 0))]
    requires img2 == if p == 0 then img1
      else img1[Before(sh.files, p) := SetWord(img1[Before(sh.files, p)], 1, NextFile(img[sh.files[p]]))]
    requires img3 == img2[0 := img3[0]] && Link(img3[0]) == 512 + sh.files[p]
    requires NextFile(img3[0]) == if p == 0 then NextFile(img[sh.files[p]]) else NextFile(img[0])
    requires Good(img, sh)
    ensures DeleteFrame(img, img3, sh, p)
  {
    hide Good, Link, NextFile, NameLength, Name, SetWord, SetNext;
    var c, b := sh.chains[sh.files[p]], Before(sh.files, p);
    FileSpot(img, sh, p);
    PreviousSpot(img, sh, p);
    forall i | 0 <= i < |c| ensures 0 < c[i] < |img| {
      ChainSpot(img, sh, sh.files[p], i);
    }
    SetNextIs(img[c[|c| - 1]], At(sh.free, 0));
    if p > 0 {
      SetNextFileFacts(img1[b], NextFile(img[sh.files[p]]));
      SetTail(img1[b], NextFile(img[sh.files[p]]));
    }
  }

  lemma FileBound(img: Image, sh: Shape, f: nat)
    requires Good(img, sh) && f in sh.chains
    ensures f + 512 < TWO64
  {
    GoodFile(img, sh, f);
  }

  lemma ChainNonempty(img: Image, sh: Shape, f: nat)
    requires Good(img, sh) && f in sh.chains
    ensures |sh.chains[f]| > 0
  {
    GoodFile(img, sh, f);
  }

  lemma NoChainEnd(img: Image, sh: Shape, f: nat, next: nat)
    requires Good(img, sh) && f in sh.chains && |sh.chains[f]| > 0 && f < |img| && next == Next(img[f]) && next != 0
    ensures |sh.chains[f]| > 1 && sh.chains[f][1] == next
  {
    hide Next, Good;
    ChainSpot(img, sh, f, 0);
    GoodChain(img, sh, f);
    ChainNext(img, sh.chains[f], 0);
  }

  ghost predicate Released1(img: Image, img2: Image, sh: Shape, f: nat)
    requires f in sh.chains
  {
    var c := sh.chains[f];
    && |img2| == |img| > 0 && |c| > 0 && c[|c| - 1] < |img| && f < |img|
    && (forall b :: 0 < b < |img| && b != c[|c| - 1] ==> img2[b] == img[b])
    && NextFile(img2[0]) == NextFile(img[0]) && SameHead(img[f], img2[f])
    && Link(img2[0]) == 512 + At(c[1..] + sh.free, 0)
    && (|c| > 1 ==> img2[f] == img[f] && Link(img2[c[|c| - 1]]) == 512 + At(sh.free, 0))
  }

  /** The blocks after the first one are in the free list. */
  lemma ReleaseStep(img: Image, img1: Image, img2: Image, sh: Shape, f: nat, next: u64)
    requires Good(img, sh) && f in sh.chains && |sh.chains[f]| > 1 && sh.chains[f][1] == next && |img1| == |img|
      && |img2| == |img|
    requires var c := sh.chains[f];
      c[|c| - 1] < |img| && At(sh.free, 0) + 512 < TWO64
      && img1 == img[c[|c| - 1] := SetNext(img[c[|c| - 1]], At(sh.free, 0))]
    requires |img| > 0 && img2 == img1[0 := SetNext(img1[0], next)]
    ensures Released1(img, img2, sh, f)
  {
    hide Good, Link, NextFile, NameLength, Name, SetWord, SetNext;
    var c := sh.chains[f];
    ChainSpot(img, sh, f, 0);
    ChainSpot(img, sh, f, 1);
    ChainSpot(img, sh, f, |c| - 1);
    FirstFile(img, sh);
    FileSize(img, sh);
    SetNextIs(img[c[|c| - 1]], At(sh.free, 0));
    SetNextIs(img1[0], next);
    assert (c[1..] + sh.free)[0] == next;
  }

  lemma FileSize(img: Image, sh: Shape)
    requires Good(img, sh)
    ensures |img| + 512 < TWO64
  {
  }

  lemma NoRelease(img: Image, sh: Shape, f: nat)
    requires Good(img, sh) && f in sh.chains && |sh.chains[f]| > 0 && f < |img| && Next(img[f]) == 0
    ensures Released1(img, img, sh, f)
  {
    hide Good, Link, Next, NextFile, NameLength, Name;
    var c := sh.chains[f];
    ChainSpot(img, sh, f, 0);
    GoodChain(img, sh, f);
    NoZeroNext(img, c, 0);
    FreshNext(img, sh, 0);
    assert c[1..] + sh.free == sh.free;
  }

  /** The whole effect of clearing a file. */
  lemma ClearedFrame(img: Image, img2: Image, img3: Image, sh: Shape, f: nat)
    requires Good(img, sh) && f in sh.chains && Released1(img, img2, sh, f) && |sh.owner| == |img|
    requires f < |img2| && NameLength(img2[f]) <= 488
      && img3 == img2[f := SetWord(img2[f], 0, 24 + NameLength(img2[f]))]
    ensures ClearFrame(img, img3, sh, f)
  {
    hide Good, Link, NextFile, NameLength, Name, SetWord;
    var c := sh.chains[f];
    ChainSpot(img, sh, f, 0);
    forall i | 0 <= i < |c| ensures 0 < c[i] < |img| {
      ChainSpot(img, sh, f, i);
    }
    if |c| > 1 {
      ChainSpot(img, sh, f, |c| - 1);
    }
    SetLinkFacts(img2[f], 24 + NameLength(img2[f]));
  }

  lemma ReleasedIs(sh: Shape, f: nat)
    requires f in sh.chains && |sh.chains[f]| > 0
    ensures f in Released(sh, f, 1, sh.files).chains
  {
  }

  lemma ClearedName(img: Image, img1: Image, sh: Shape, f: nat)
    requires f in sh.chains && |sh.owner| == |img| && ClearFrame(img, img1, sh, f)
    ensures NameIn(img1, f) == NameIn(img, f)
  {
    hide Link, NextFile, NameLength, Name;
  }

  // ----- sequences of calls -----

  function Sum(sizes: seq<nat>): nat { if sizes == [] then 0 else sizes[0] + Sum(sizes[1..]) }

  function Concat(pieces: seq<seq<u8>>): seq<u8> { if pieces == [] then [] else pieces[0] + Concat(pieces[1..]) }

  /** What consecutive reads of the given sizes give, up to and including the first that comes short. */
  function Chunks(data: seq<u8>, sizes: seq<nat>): seq<u8> {
    if sizes == [] then []
    else if sizes[0] > |data| then data
    else data[..sizes[0]] + Chunks(data[sizes[0]..], sizes[1..])
  }

  /** n calls have read `data`, and `rest` is still to be read. */
  ghost predicate ReadSoFar(all: seq<u8>, sizes: seq<nat>, n: nat, data: seq<u8>, rest: seq<u8>)
    requires n <= |sizes|
  {
    all == data + rest && Chunks(all, sizes) == data + Chunks(rest, sizes[n..])
    && Sum(sizes) == |data| + Sum(sizes[n..])
  }

  lemma ChunksStart(all: seq<u8>, sizes: seq<nat>)
    ensures ReadSoFar(all, sizes, 0, [], all)
  {
    hide Chunks, Sum;
    assert sizes[0..] == sizes && [] + Chunks(all, sizes[0..]) == Chunks(all, sizes) && [] + all == all;
  }

  lemma ChunkStep(all: seq<u8>, sizes: seq<nat>, n: nat, data: seq<u8>, rest: seq<u8>, more: seq<u8>)
    requires n < |sizes| && ReadSoFar(all, sizes, n, data, rest)
    requires more == if sizes[n] <= |rest| then rest[..sizes[n]] else rest
    ensures if sizes[n] <= |rest| then ReadSoFar(all, sizes, n + 1, data + more, rest[sizes[n]..])
            else data + more == all == Chunks(all, sizes) && |all| < Sum(sizes)
  {
    hide Chunks, Sum;
    ChunksUnfold(rest, sizes, n);
    if sizes[n] <= |rest| {
      ThreeParts(data, rest, sizes[n], Chunks(rest[sizes[n]..], sizes[n + 1..]));
    }
  }

  lemma ThreeParts(data: seq<u8>, rest: seq<u8>, size: nat, after: seq<u8>)
    requires size <= |rest|
    ensures data + rest == data + rest[..size] + rest[size..]
    ensures data + (rest[..size] + after) == data + rest[..size] + after
  {
  }

  lemma ChunksUnfold(rest: seq<u8>, sizes: seq<nat>, n: nat)
    requires n < |sizes|
    ensures Sum(sizes[n..]) == sizes[n] + Sum(sizes[n + 1..])
    ensures Chunks(rest, sizes[n..])
      == if sizes[n] > |rest| then rest else rest[..sizes[n]] + Chunks(rest[sizes[n]..], sizes[n + 1..])
  {
    assert sizes[n..][1..] == sizes[n + 1..] && sizes[n..][0] == sizes[n];
  }

  lemma ChunksEnd(all: seq<u8>, sizes: seq<nat>, data: seq<u8>, rest: seq<u8>)
    requires ReadSoFar(all, sizes, |sizes|, data, rest)
    ensures data == Chunks(all, sizes) && Sum(sizes) <= |all|
  {
    assert sizes[|sizes|..] == [];
  }

  /** The chunks are the data, up to as much as was asked for. */
  lemma {:induction false} ChunksAre(data: seq<u8>, sizes: seq<nat>)
    ensures Chunks(data, sizes) == if Sum(sizes) > |data| then data else data[..Sum(sizes)]
    decreases |sizes|
  {
    if sizes != [] && sizes[0] <= |data| {
      ChunksAre(data[sizes[0]..], sizes[1..]);
      assert data == data[..sizes[0]] + data[sizes[0]..];
      if Sum(sizes) <= |data| {
        assert data[..Sum(sizes)] == data[..sizes[0]] + data[sizes[0]..][..Sum(sizes[1..])];
      }
    }
  }

  lemma {:induction false} ConcatMore(pieces: seq<seq<u8>>, piece: seq<u8>)
    ensures Concat(pieces + [piece]) == Concat(pieces) + piece
    decreases |pieces|
  {
    if pieces != [] {
      assert (pieces + [piece])[1..] == pieces[1..] + [piece];
      ConcatMore(pieces[1..], piece);
    } else {
      assert [piece][1..] == [];
    }
  }

  lemma ConcatSnoc(pieces: seq<seq<u8>>, n: nat)
    requires n < |pieces|
    ensures Concat(pieces[..n + 1]) == Concat(pieces[..n]) + pieces[n]
  {
    assert pieces[..n + 1] == pieces[..n] + [pieces[n]];
    ConcatMore(pieces[..n], pieces[n]);
  }

  lemma StartOfFile(img: Image, sh: Shape, f: nat)
    requires Good(img, sh) && f in sh.chains
    ensures f < |img| && ChainLinked(img, sh.chains[f]) && |sh.chains[f]| > 0 && sh.chains[f][0] == f
    ensures NameLength(img[f]) <= 488
    ensures 24 + NameLength(img[f]) <= End(img, sh.chains[f], 0)
    ensures Content(img, sh.chains[f]) == Rest(img, sh.chains[f], 0, 24 + NameLength(img[f]))
  {
    hide Good, Link, NameLength, Rest;
    ChainNonempty(img, sh, f);
    ChainSpot(img, sh, f, 0);
    GoodChain(img, sh, f);
    LastOf(img, sh.chains[f]);
  }

  // ----- a file that keeps its name and content while it moves between images -----

  lemma SameBoth(img: Image, img1: Image, c: seq<nat>)
    requires SameFile(img, img1, c)
    ensures SameContent(img, c, img1, c)
  {
    hide Link, NameLength, Name;
  }

  lemma SameTrans(img: Image, c: seq<nat>, img1: Image, c1: seq<nat>, img2: Image, c2: seq<nat>)
    requires SameContent(img, c, img1, c1) && SameContent(img1, c1, img2, c2)
    ensures SameContent(img, c, img2, c2)
  {
    hide Link, NameLength, Name, ChainLinked, Content;
    SameParts(img, c, img1, c1);
    SameParts(img1, c1, img2, c2);
  }

  lemma SameParts(img: Image, c: seq<nat>, img1: Image, c1: seq<nat>)
    requires SameContent(img, c, img1, c1)
    ensures ChainLinked(img, c) && ChainLinked(img1, c1) && |c| > 0 && |c1| > 0 && c[0] < |img| && c1[0] < |img1|
  {
  }

  lemma CreatedChain(sh: Shape, p: nat, g: nat)
    requires p <= |sh.files| && sh.free != [] && g in sh.chains && g != sh.free[0]
    ensures g in Created(sh, p).chains && Created(sh, p).chains[g] == sh.chains[g]
  {
  }

  lemma CreatedSelf(sh: Shape, p: nat)
    requires p <= |sh.files| && sh.free != []
    ensures sh.free[0] in Created(sh, p).chains && Created(sh, p).chains[sh.free[0]] == [sh.free[0]]
    ensures |Created(sh, p).free| == |sh.free| - 1
  {
  }

  lemma EmptyIs(img: Image, f: nat, name: seq<u8>)
    requires EmptyFile(img, f, name)
    ensures NameIn(img, f) == name && ChainLinked(img, [f]) && NameLength(img[f]) <= 488 && Content(img, [f]) == []
  {
  }

  /** The new file is none of the old ones, and none of these had its name. */
  lemma NewName(img: Image, sh: Shape, name: seq<u8>, p: nat, g: nat)
    requires Good(img, sh) && sh.free != [] && p <= |sh.files| && Belongs(img, sh.files, p, name) && g in sh.chains
    ensures g != sh.free[0] && NameIn(img, g) != name
  {
    GoodLists(img, sh);
    hide Good, Less, NameIn, FreeLinked, FilesLinked, Sorted;
    FreeSpot(img, sh, 0);
    ChainSpot(img, sh, g, 0);
    GoodFile(img, sh, g);
    var i :| 0 <= i < |sh.files| && sh.files[i] == g;
    if i < p { LessNotBoth(NameIn(img, g), name); } else { LessNotBoth(name, NameIn(img, g)); }
  }
}
