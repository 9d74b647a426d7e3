/** The text editor: a text in a buffer with a gap at the cursor, moved by copies of overlapping memory. */
module Editor {
  import opened Words
  import opened Stores

  const ARROW_UP_KEY := 129
  const ARROW_DOWN_KEY := 130
  const ARROW_RIGHT_KEY := 131
  const ARROW_LEFT_KEY := 132
  const PAGE_UP_KEY := 137
  const PAGE_DOWN_KEY := 138
  const MOVING_KEYS := {
    ARROW_UP_KEY, ARROW_DOWN_KEY, ARROW_RIGHT_KEY, ARROW_LEFT_KEY, PAGE_UP_KEY, PAGE_DOWN_KEY
  }
  const BACKSPACE_KEY := 8
  const TAB_KEY := 9
  const ENTER_KEY := 10
  const DELETE_KEY := 127
  const ESCAPE_KEY := 151

  // ----- copying memory -----

  /** Bytes from i to j of the copy are there; everything else is as it was. */
  ghost predicate Copied(m: seq<u8>, m1: seq<u8>, src: nat, dst: nat, i: nat, j: nat) {
    |m1| == |m| && src + j <= |m| && dst + j <= |m| && forall k: nat :: k < |m| ==> CopiedAt(m, m1, src, dst, i, j, k)
  }

  predicate CopiedAt(m: seq<u8>, m1: seq<u8>, src: nat, dst: nat, i: nat, j: nat, k: nat)
    requires k < |m| == |m1| && src + j <= |m| && dst + j <= |m|
  {
    m1[k] == if dst + i <= k < dst + j then m[src + k - dst] else m[k]
  }

  /** Copying a 64-bit word. */
  method CopyWord(memory: array<u8>, src: nat, dst: nat)
    requires src + 8 <= memory.Length && dst + 8 <= memory.Length
    modifies memory
    ensures Copied(old(memory[..]), memory[..], src, dst, 0, 8)
  {
    var word := memory[src..src + 8];
    forall k | 0 <= k < 8 {
      memory[dst + k] := word[k];
    }
  }

  /** mem_copy: words and then bytes, from the start or from the end, so that it is right for overlapping memory too. */
  method MemCopy(memory: array<u8>, src: nat, dst: nat, n: nat)
    requires src + n <= memory.Length && dst + n <= memory.Length
    modifies memory
    ensures memory[..] == Patched(old(memory[..]), dst, old(memory[..])[src..src + n])
  {
    ghost var m := memory[..];
    var i := 0;
    if dst < src {
      while i + 8 <= n
        invariant i <= n && Copied(m, memory[..], src, dst, 0, i)
      {
        ghost var m1 := memory[..];
        CopyWord(memory, src + i, dst + i);
        Forward(m, m1, memory[..], src, dst, i, 8);
        i := i + 8;
      }
      while i < n
        invariant i <= n && Copied(m, memory[..], src, dst, 0, i)
      {
        ghost var m1 := memory[..];
        memory[dst + i] := memory[src + i];
        Forward(m, m1, memory[..], src, dst, i, 1);
        i := i + 1;
      }
    } else {
      i := n;
      while i >= 8
        invariant 0 <= i <= n && Copied(m, memory[..], src, dst, i, n)
      {
        i := i - 8;
        ghost var m1 := memory[..];
        CopyWord(memory, src + i, dst + i);
        Backward(m, m1, memory[..], src, dst, i, 8, n);
      }
      while i > 0
        invariant 0 <= i <= n && Copied(m, memory[..], src, dst, i, n)
      {
        i := i - 1;
        ghost var m1 := memory[..];
        memory[dst + i] := memory[src + i];
        Backward(m, m1, memory[..], src, dst, i, 1, n);
      }
    }
    CopiedAll(m, memory[..], src, dst, n);
  }

  /** The next bytes of a copy to a lower address come from where nothing was copied to yet. */
  lemma Forward(m: seq<u8>, m1: seq<u8>, m2: seq<u8>, src: nat, dst: nat, i: nat, w: nat)
    requires dst < src && Copied(m, m1, src, dst, 0, i) && Copied(m1, m2, src + i, dst + i, 0, w)
    ensures Copied(m, m2, src, dst, 0, i + w)
  {
    var j := i + w;
    forall k: nat | k < |m| ensures CopiedAt(m, m2, src, dst, 0, j, k) {
      assert CopiedAt(m1, m2, src + i, dst + i, 0, w, k) && CopiedAt(m, m1, src, dst, 0, i, k);
      if dst + i <= k < dst + i + w { assert CopiedAt(m, m1, src, dst, 0, i, src + k - dst); }
    }
  }

  /** And so do the next bytes of a copy to a higher address, from the end. */
  lemma Backward(m: seq<u8>, m1: seq<u8>, m2: seq<u8>, src: nat, dst: nat, i: nat, w: nat, n: nat)
    requires dst >= src && i + w <= n && Copied(m, m1, src, dst, i + w, n) && Copied(m1, m2, src + i, dst + i, 0, w)
    ensures Copied(m, m2, src, dst, i, n)
  {
    forall k: nat | k < |m| ensures CopiedAt(m, m2, src, dst, i, n, k) {
      assert CopiedAt(m1, m2, src + i, dst + i, 0, w, k) && CopiedAt(m, m1, src, dst, i + w, n, k);
      if dst + i <= k < dst + i + w { assert CopiedAt(m, m1, src, dst, i + w, n, src + k - dst); }
    }
  }

  lemma CopiedAll(m: seq<u8>, m1: seq<u8>, src: nat, dst: nat, n: nat)
    requires Copied(m, m1, src, dst, 0, n)
    ensures m1 == Patched(m, dst, m[src..src + n])
  {
    forall k: nat | k < |m| ensures m1[k] == Patched(m, dst, m[src..src + n])[k] {
      assert CopiedAt(m, m1, src, dst, 0, n, k);
    }
  }

  // ----- texts with a cursor -----

  /** The text before the cursor, the text after it, and how much more there is room for. */
  datatype Document = Document(left: seq<u8>, right: seq<u8>, room: nat)

  function Text(d: Document): seq<u8> { d.left + d.right }

  function Moved(d: Document, position: nat): Document
    requires position <= |Text(d)|
  {
    Document(Text(d)[..position], Text(d)[position..], d.room)
  }

  /** How many lines end in a text. */
  function Lines(s: seq<u8>): nat { if s == [] then 0 else Lines(s[..|s| - 1]) + if s[|s| - 1] == ENTER_KEY then 1
                 else 0 }

  /** The columns after the last end of a line. */
  function Columns(s: seq<u8>): nat {
    if s == [] || s[|s| - 1] == ENTER_KEY then 0 else Columns(s[..|s| - 1]) + if s[|s| - 1] == TAB_KEY then 2 else 1
  }

  /** Where the line starts that is so many lines before the end of the text. */
  function LineStart(s: seq<u8>, lines: nat): (p: nat)
    ensures p <= |s|
  {
    if s == [] then 0
    else if s[|s| - 1] != ENTER_KEY then LineStart(s[..|s| - 1], lines)
    else if lines == 0 then |s|
    else LineStart(s[..|s| - 1], lines - 1)
  }

  /** Where the line starts that is so many lines after the start of the text. */
  function LineAfter(s: seq<u8>, lines: nat): (p: nat)
    requires lines > 0
    ensures p <= |s|
  {
    if s == [] then 0
    else if s[0] != ENTER_KEY then 1 + LineAfter(s[1..], lines)
    else if lines == 1 then 1
    else 1 + LineAfter(s[1..], lines - 1)
  }

  ghost predicate StartsLine(s: seq<u8>, p: nat) { p == 0 || (p <= |s| && s[p - 1] == ENTER_KEY) }

  /** The start of the line is where a line starts and so many lines end after it, or the start of the text if there
      are no more. */
  lemma {:induction false} LineStartIs(s: seq<u8>, lines: nat, p: nat)
    requires p <= |s|
    ensures p == LineStart(s, lines) <==> StartsLine(s, p) && (Lines(s[p..]) == lines || (p == 0 && Lines(s) <= lines))
    decreases |s|
  {
    if s == [] {
      assert s[p..] == [];
    } else {
      var n := |s| - 1;
      var t := s[..n];
      if p <= n {
        assert s[p..][..n - p] == t[p..];
        LinesPart(t, p);
        if s[n] != ENTER_KEY {
          LineStartIs(t, lines, p);
        } else if lines > 0 {
          LineStartIs(t, lines - 1, p);
        }
      } else {
        assert s[p..] == [];
        if s[n] == ENTER_KEY && lines > 0 { LineStartIs(t, lines - 1, LineStart(t, lines - 1)); }
        if s[n] != ENTER_KEY { LineStartIs(t, lines, LineStart(t, lines)); }
      }
    }
  }

  lemma {:induction false} LinesPart(s: seq<u8>, p: nat)
    requires p <= |s|
    ensures Lines(s) == Lines(s[..p]) + Lines(s[p..])
    decreases |s| - p
  {
    if p == |s| {
      assert s[..p] == s && s[p..] == [];
    } else {
      var t := s[..|s| - 1];
      assert s[p..][..|s| - 1 - p] == t[p..] && t[..p] == s[..p];
      LinesPart(t, p);
    }
  }

  /** The start of the line after so many ends of lines, or the end of the text if there are fewer. */
  lemma {:induction false} LineAfterIs(s: seq<u8>, lines: nat, p: nat)
    requires p <= |s| && lines > 0
    ensures p == LineAfter(s, lines)
      <==> (p > 0 && s[p - 1] == ENTER_KEY && Lines(s[..p]) == lines) || (p == |s| && Lines(s) < lines)
    decreases |s|
  {
    if s != [] {
      var t := s[1..];
      LinesPart(s, 1);
      LinesOne(s[..1]);
      if p > 0 {
        assert s[..p][1..] == t[..p - 1] && s[..p][..1] == s[..1];
        LinesPart(s[..p], 1);
        if s[0] != ENTER_KEY {
          LineAfterIs(t, lines, p - 1);
        } else if lines > 1 {
          LineAfterIs(t, lines - 1, p - 1);
        } else if p > 1 && s[p - 1] == ENTER_KEY {
          LinesLast(s[..p]);
        }
      }
    }
  }

  lemma LinesOne(s: seq<u8>)
    requires |s| == 1
    ensures Lines(s) == if s[0] == ENTER_KEY then 1 else 0
  {
    assert s[..0] == [];
  }

  lemma LinesLast(s: seq<u8>)
    requires |s| > 1 && s[|s| - 1] == ENTER_KEY && s[0] == ENTER_KEY
    ensures Lines(s) > 1
  {
    var t := s[..|s| - 1];
    LinesPart(t, 1);
    LinesOne(t[..1]);
  }

  // ----- what the keys do -----

  /** Where a key moves the cursor. */
  function NewPosition(d: Document, key: nat): (p: nat)
    ensures p <= |Text(d)|
  {
    if key == ARROW_LEFT_KEY && d.left != [] then |d.left| - 1
    else if key == ARROW_RIGHT_KEY && d.right != [] then |d.left| + 1
    else if key == ARROW_UP_KEY then LineStart(d.left, 1)
    else if key == ARROW_DOWN_KEY then |d.left| + LineAfter(d.right, 1)
    else if key == PAGE_UP_KEY then LineStart(d.left, 30)
    else if key == PAGE_DOWN_KEY then |d.left| + LineAfter(d.right, 30)
    else |d.left|
  }

  function Applied(d: Document, key: nat): Document {
    if key == BACKSPACE_KEY then
      if d.left == [] then d else Document(d.left[..|d.left| - 1], d.right, d.room + 1)
    else if key < DELETE_KEY then
      if d.room == 0 then d else Document(d.left + [key], d.right, d.room - 1)
    else Moved(d, NewPosition(d, key))
  }

  function AllApplied(d: Document, keys: seq<nat>): Document {
    if keys == [] then d else Applied(AllApplied(d, keys[..|keys| - 1]), keys[|keys| - 1])
  }

  /** The text and the room for more are together as much as before. */
  lemma {:induction false} RoomKept(d: Document, keys: seq<nat>)
    ensures var d1 := AllApplied(d, keys); |Text(d1)| + d1.room == |Text(d)| + d.room
    decreases |keys|
  {
    if keys != [] { RoomKept(d, keys[..|keys| - 1]); }
  }

  /** Keys that move the cursor keep the text. */
  lemma MovesKeepText(d: Document, key: nat)
    requires key >= DELETE_KEY
    ensures Text(Applied(d, key)) == Text(d) && |Applied(d, key).left| == NewPosition(d, key)
  {
    var p := NewPosition(d, key);
    assert Text(d) == Text(d)[..p] + Text(d)[p..];
  }

  /** Backspace undoes typing. */
  lemma TypedAndErased(d: Document, key: nat)
    requires key < DELETE_KEY && key != BACKSPACE_KEY && d.room > 0
    ensures Applied(Applied(d, key), BACKSPACE_KEY) == d
  {
    assert (d.left + [key])[..|d.left|] == d.left;
  }

  /** The arrows to the left and to the right undo each other. */
  lemma LeftAndRight(d: Document)
    ensures d.left != [] ==> Applied(Applied(d, ARROW_LEFT_KEY), ARROW_RIGHT_KEY) == d
    ensures d.right != [] ==> Applied(Applied(d, ARROW_RIGHT_KEY), ARROW_LEFT_KEY) == d
  {
    if d.left != [] { MovedBack(d, |d.left| - 1); }
    if d.right != [] { MovedBack(d, |d.left| + 1); }
  }

  lemma MovedBack(d: Document, p: nat)
    requires p <= |Text(d)|
    ensures Moved(Moved(d, p), |d.left|) == d
  {
    assert Text(Moved(d, p)) == Text(d);
  }

  /** The place p is so many lines before place c of a text: a line starts at it and so many lines end from there to c,
      or it is the start of the text and no more lines end before c. */
  ghost predicate LinesBefore(text: seq<u8>, c: nat, lines: nat, p: nat) {
    p <= c <= |text| && StartsLine(text, p)
    && (Lines(text[p..c]) == lines || (p == 0 && Lines(text[..c]) <= lines))
  }

  /** The place p is so many lines after place c: a line ends just before it, the last of so many from c on; or it is
      the end of the text and fewer lines end. */
  ghost predicate LinesAfter(text: seq<u8>, c: nat, lines: nat, p: nat) {
    c <= p <= |text|
    && ((p > c && text[p - 1] == ENTER_KEY && Lines(text[c..p]) == lines) || (p == |text| && Lines(text[c..]) < lines))
  }

  /** Up and page up move the cursor to the only place that is a line, or 30 lines, before it. */
  lemma UpKeys(d: Document, key: nat, p: nat)
    requires key == ARROW_UP_KEY || key == PAGE_UP_KEY
    ensures p == |Applied(d, key).left|
      <==> LinesBefore(Text(d), |d.left|, if key == ARROW_UP_KEY then 1 else 30, p)
  {
    hide LineStart, LineAfter, Lines;
    var lines, c := if key == ARROW_UP_KEY then 1 else 30, |d.left|;
    MovesKeepText(d, key);
    assert Text(d)[..c] == d.left;
    if p <= c {
      assert Text(d)[p..c] == d.left[p..];
      LineStartIs(d.left, lines, p);
    }
  }

  /** Down and page down move it to the only place that is a line, or 30 lines, after it. */
  lemma DownKeys(d: Document, key: nat, p: nat)
    requires key == ARROW_DOWN_KEY || key == PAGE_DOWN_KEY
    ensures p == |Applied(d, key).left|
      <==> LinesAfter(Text(d), |d.left|, if key == ARROW_DOWN_KEY then 1 else 30, p)
  {
    hide LineStart, LineAfter, Lines;
    var lines, c := if key == ARROW_DOWN_KEY then 1 else 30, |d.left|;
    MovesKeepText(d, key);
    assert Text(d)[c..] == d.right;
    if c <= p <= |Text(d)| {
      assert Text(d)[c..p] == d.right[..p - c];
      LineAfterIs(d.right, lines, p - c);
    }
  }

  /** The arrows to the left and to the right move it by a character, up to the ends of the text. Backspace takes the
      character before it away, and the other keys from 127 on do nothing. */
  lemma OtherKeys(d: Document, key: nat)
    ensures key == ARROW_LEFT_KEY ==> |Applied(d, key).left| == if d.left == [] then 0 else |d.left| - 1
    ensures key == ARROW_RIGHT_KEY ==> |Applied(d, key).left| == if d.right == [] then |d.left| else |d.left| + 1
    ensures key == BACKSPACE_KEY ==> Applied(d, key).right == d.right && (if d.left == [] then Applied(d, key) == d
      else Applied(d, key).left + [d.left[|d.left| - 1]] == d.left)
    ensures key >= DELETE_KEY && key !in MOVING_KEYS ==> Applied(d, key) == d
  {
    if key >= DELETE_KEY { MovesKeepText(d, key); }
    MovedBack(d, |d.left|);
  }

  /** Typing characters puts them before the cursor, one after the other, as far as there is room. */
  lemma {:induction false} TypedText(d: Document, keys: seq<nat>)
    requires forall i :: 0 <= i < |keys| ==> keys[i] < DELETE_KEY && keys[i] != BACKSPACE_KEY
    ensures var n := if |keys| <= d.room then |keys| else d.room;
      AllApplied(d, keys) == Document(d.left + keys[..n], d.right, d.room - n)
    decreases |keys|
  {
    if keys != [] {
      var init := keys[..|keys| - 1];
      TypedText(d, init);
      if |keys| <= d.room {
        assert keys[..|keys|] == init[..|init|] + [keys[|keys| - 1]];
      } else {
        assert keys[..d.room] == init[..d.room];
      }
    }
  }

  // ----- the editor -----

  /** The document in a buffer. */
  function DocumentIn(m: seq<u8>, begin: nat, cursor: nat, gap: nat, end: nat): Document
    requires begin <= cursor && cursor + gap <= end <= |m|
  {
    Document(m[begin..cursor], m[cursor + gap..end], gap)
  }

  class TextEditor {
    const memory: array<u8>
    const begin: nat
    const end: nat
    var cursor: nat
    var gap: nat

    ghost predicate Valid()
      reads this
    {
      begin <= cursor && cursor + gap <= end <= memory.Length
    }

    ghost function Doc(): Document
      reads this, memory
      requires Valid()
    {
      DocumentIn(memory[..], begin, cursor, gap, end)
    }

    constructor (m: array<u8>, b: nat, e: nat, length: nat)
      requires b + length <= e <= m.Length
      ensures Valid() && memory == m && begin == b && end == e && cursor == b + length && gap == e - cursor
    {
      memory, begin, end, cursor, gap := m, b, e, b + length, e - (b + length);
    }

    /** ted_set_cursor: moves the gap. */
    method SetCursor(newCursor: nat)
      requires Valid() && begin <= newCursor <= end - gap
      modifies this`cursor, memory
      ensures Valid() && cursor == newCursor && Doc() == Moved(old(Doc()), newCursor - begin)
      ensures OutsideSame(old(memory[..]), memory[..], begin, end)
    {
      hide Patched, OutsideSame, Moved, DocumentIn;
      ghost var m := memory[..];
      if newCursor > cursor {
        MemCopy(memory, cursor + gap, cursor, newCursor - cursor);
        PatchedSame(m, cursor, m[cursor + gap..newCursor + gap], begin, end);
        GapRight(m, memory[..], begin, cursor, gap, end, newCursor);
      } else {
        MemCopy(memory, newCursor, newCursor + gap, cursor - newCursor);
        PatchedSame(m, newCursor + gap, m[newCursor..cursor], begin, end);
        GapLeft(m, memory[..], begin, cursor, gap, end, newCursor);
      }
      cursor := newCursor;
    }

    /** ted_move_backward: the start of a line before the cursor; also the row and the column of the cursor from
        there. */
    method MoveBackward(lines: nat) returns (ptr: nat, col: nat, row: nat)
      requires Valid()
      ensures ptr == begin + LineStart(Doc().left, lines) <= cursor
      ensures row == Lines(Doc().left[ptr - begin..]) && col == Columns(Doc().left)
    {
      hide LineStart, Lines, Columns;
      ghost var left := Doc().left;
      ptr, col, row := cursor, 0, 0;
      BackStart(left);
      while ptr > begin
        invariant begin <= ptr <= cursor && row <= lines
        invariant LineStart(left[..ptr - begin], lines - row) == LineStart(left, lines)
          && row == Lines(left[ptr - begin..])
        invariant if row == 0 then col + Columns(left[..ptr - begin]) == Columns(left) else col == Columns(left)
        decreases ptr
      {
        var c := memory[ptr - 1];
        BackStep(left, ptr - begin, lines - row);
        if c == ENTER_KEY {
          if row == lines { return; }
          row := row + 1;
        } else if row == 0 {
          if c == TAB_KEY { col := col + 2; } else { col := col + 1; }
        }
        ptr := ptr - 1;
      }
      NoText(left, lines - row);
    }

    /** ted_move_forward: the start of a line after the cursor. */
    method MoveForward(lines: nat) returns (to: nat)
      requires Valid() && lines > 0
      ensures to == cursor + LineAfter(Doc().right, lines) <= end - gap
    {
      hide LineAfter;
      ghost var right := Doc().right;
      to := cursor;
      var more := lines;
      WholeText(right);
      while true
        invariant cursor <= to <= end - gap && more > 0
        invariant to - cursor + LineAfter(right[to - cursor..], more) == LineAfter(right, lines)
        decreases end - to
      {
        AheadStep(right, to - cursor, more);
        assert to < end - gap ==> memory[to + gap] == right[to - cursor];
        if to == end - gap { return; }
        if memory[to + gap] == ENTER_KEY {
          if more == 1 { return to + 1; }
          more := more - 1;
        }
        to := to + 1;
      }
    }

    /** ted_handle_key: where a key moves the cursor. */
    method HandleKey(c: nat) returns (to: nat)
      requires Valid()
      ensures to == begin + NewPosition(Doc(), c) <= end - gap
    {
      hide LineStart, LineAfter, Lines, Columns;
      var col, row;
      if c == ARROW_LEFT_KEY && cursor > begin {
        return cursor - 1;
      } else if c == ARROW_RIGHT_KEY && cursor < end - gap {
        return cursor + 1;
      } else if c == ARROW_UP_KEY {
        to, col, row := MoveBackward(1);
        return;
      } else if c == ARROW_DOWN_KEY {
        to := MoveForward(1);
        return;
      } else if c == PAGE_UP_KEY {
        to, col, row := MoveBackward(30);
        return;
      } else if c == PAGE_DOWN_KEY {
        to := MoveForward(30);
        return;
      }
      to := cursor;
    }

    /** What text_editor does with a key, but for the last one. */
    method PressKey(c: nat)
      requires Valid()
      modifies this, memory
      ensures Valid() && Doc() == Applied(old(Doc()), c)
      ensures OutsideSame(old(memory[..]), memory[..], begin, end)
    {
      hide NewPosition, LineStart, LineAfter, OutsideSame, Moved, DocumentIn;
      ghost var m := memory[..];
      SameOutside(m, begin, end);
      if c == BACKSPACE_KEY {
        if cursor > begin {
          Erased(m, begin, cursor, gap, end);
          cursor := cursor - 1;
          gap := gap + 1;
        } else {
          NothingErased(m, begin, gap, end);
        }
      } else if c < DELETE_KEY {
        if gap > 0 {
          memory[cursor] := c;
          Typed(m, memory[..], begin, cursor, gap, end, c);
          cursor := cursor + 1;
          gap := gap - 1;
        } else {
          NothingTyped(m, begin, cursor, end, c);
        }
      } else {
        var to := HandleKey(c);
        SetCursor(to);
      }
    }

    /** What text_editor does with the escape key: the text is in one piece, after its length. */
    method Finish(buffer: nat)
      requires Valid() && buffer + 8 == begin && memory.Length < TWO64
      modifies this`cursor, memory
      ensures var text := Text(old(Doc()));
        begin + |text| <= end && memory[buffer..begin] == LE64(|text|) && memory[begin..begin + |text|] == text
      ensures OutsideSame(old(memory[..]), memory[..], buffer, end)
    {
      hide LE64, OutsideSame, DocumentIn, Patched, Moved;
      ghost var m, d := memory[..], Doc();
      DocumentSize(m, begin, cursor, gap, end);
      SetCursor(end - gap);
      ghost var m2 := memory[..];
      var size := cursor - begin;
      Escaped(m2, begin, gap, end, d);
      StoreWord(memory, buffer, size);
      WordStored(m2, memory[..], buffer, size);
      SameOutside(m, buffer, end);
      OutsideTrans(m, m, m2, buffer, end, begin, end);
      OutsideTrans(m, m2, memory[..], buffer, end, buffer, buffer + 8);
    }
  }

  lemma Erased(m: seq<u8>, begin: nat, cursor: nat, gap: nat, end: nat)
    requires begin < cursor && cursor + gap <= end <= |m|
    ensures DocumentIn(m, begin, cursor - 1, gap + 1, end) == Applied(DocumentIn(m, begin, cursor, gap, end),
      BACKSPACE_KEY)
  {
  }

  lemma NothingErased(m: seq<u8>, begin: nat, gap: nat, end: nat)
    requires begin + gap <= end <= |m|
    ensures Applied(DocumentIn(m, begin, begin, gap, end), BACKSPACE_KEY) == DocumentIn(m, begin, begin, gap, end)
  {
    hide NewPosition, LineStart, LineAfter, Moved;
  }

  lemma NothingTyped(m: seq<u8>, begin: nat, cursor: nat, end: nat, c: nat)
    requires begin <= cursor <= end <= |m| && c < DELETE_KEY && c != BACKSPACE_KEY
    ensures Applied(DocumentIn(m, begin, cursor, 0, end), c) == DocumentIn(m, begin, cursor, 0, end)
  {
    hide NewPosition, LineStart, LineAfter, Moved;
  }

  lemma Typed(m: seq<u8>, m1: seq<u8>, begin: nat, cursor: nat, gap: nat, end: nat, c: u8)
    requires begin <= cursor && gap > 0 && cursor + gap <= end <= |m| && m1 == m[cursor := c] && c < DELETE_KEY
      && c != BACKSPACE_KEY
    ensures DocumentIn(m1, begin, cursor + 1, gap - 1, end) == Applied(DocumentIn(m, begin, cursor, gap, end), c)
    ensures OutsideSame(m, m1, begin, end)
  {
    assert m1[begin..cursor + 1] == m[begin..cursor] + [c];
    assert m1[cursor + gap..end] == m[cursor + gap..end];
  }

  lemma WholeText(right: seq<u8>)
    ensures right[0..] == right
  {
  }

  /** One character ahead. */
  lemma AheadStep(right: seq<u8>, p: nat, lines: nat)
    requires p <= |right| && lines > 0
    ensures p == |right| ==> LineAfter(right[p..], lines) == 0
    ensures p < |right| ==>
      LineAfter(right[p..], lines)
      == if right[p] != ENTER_KEY then 1 + LineAfter(right[p + 1..], lines) else if lines == 1 then 1
        else 1 + LineAfter(right[p + 1..], lines - 1)
  {
    if p < |right| { assert right[p..][1..] == right[p + 1..]; }
  }

  /** text_editor: edits the text in a buffer, whose first word is its length, with the keys up to the escape key;
      without one, it goes on. The buffer then holds the text that the keys make, from its start, and its length. */
  method EditText(memory: array<u8>, buffer: nat, offset: nat, maxLength: nat, keys: seq<nat>)
      returns (done: bool, n: nat)
    requires buffer + 8 + maxLength <= memory.Length < TWO64
    modifies memory
    ensures From64(old(memory[buffer..buffer + 8])) > maxLength ==> memory[..] == old(memory[..])
    ensures From64(old(memory[buffer..buffer + 8])) <= maxLength ==>
      n <= |keys| && ESCAPE_KEY !in keys[..n] && (done <==> n < |keys|) && (done ==> keys[n] == ESCAPE_KEY)
    ensures From64(old(memory[buffer..buffer + 8])) <= maxLength && done ==>
      var start := Opening(old(memory[..]), buffer, From64(old(memory[buffer..buffer + 8])), offset, maxLength);
      var text := Text(AllApplied(start, keys[..n]));
      |text| <= maxLength && memory[buffer..buffer + 8] == LE64(|text|)
      && memory[buffer + 8..buffer + 8 + |text|] == text
    ensures OutsideSame(old(memory[..]), memory[..], buffer, buffer + 8 + maxLength)
  {
    hide LE64, From64, Applied, AllApplied, OutsideSame, DocumentIn, Opening;
    ghost var m := memory[..];
    done, n := false, 0;
    SameOutside(m, buffer, buffer + 8 + maxLength);
    var length := From64(memory[buffer..buffer + 8]);
    if length > maxLength { return; }
    var editor := new TextEditor(memory, buffer + 8, buffer + 8 + maxLength, length);
    var at := if offset > length then length else offset;
    editor.SetCursor(buffer + 8 + at);
    ghost var start := Opening(m, buffer, length, offset, maxLength);
    OpeningIs(m, buffer, length, offset, maxLength);
    OutsideTrans(m, m, memory[..], buffer, buffer + 8 + maxLength, buffer + 8, buffer + 8 + maxLength);
    NoKeys(start, keys);
    while n < |keys|
      invariant n <= |keys| && ESCAPE_KEY !in keys[..n] && !done && editor.Valid() && fresh(editor)
      invariant editor.memory == memory && editor.begin == buffer + 8 && editor.end == buffer + 8 + maxLength
      invariant editor.Doc() == AllApplied(start, keys[..n])
        && OutsideSame(m, memory[..], buffer, buffer + 8 + maxLength)
    {
      ghost var m1 := memory[..];
      MoreKeys(start, keys, n);
      if keys[n] == ESCAPE_KEY {
        editor.Finish(buffer);
        OutsideTrans(m, m1, memory[..], buffer, buffer + 8 + maxLength, buffer, buffer + 8 + maxLength);
        done := true;
        return;
      }
      editor.PressKey(keys[n]);
      OutsideTrans(m, m1, memory[..], buffer, buffer + 8 + maxLength, buffer + 8, buffer + 8 + maxLength);
      n := n + 1;
    }
  }

  lemma OpeningIs(m: seq<u8>, buffer: nat, length: nat, offset: nat, maxLength: nat)
    requires length <= maxLength && buffer + 8 + maxLength <= |m|
    ensures var b, e := buffer + 8, buffer + 8 + maxLength;
      var at := if offset > length then length else offset;
      at <= |Text(DocumentIn(m, b, b + length, maxLength - length, e))|
      && Moved(DocumentIn(m, b, b + length, maxLength - length, e), at) == Opening(m, buffer, length, offset, maxLength)
  {
    var b, e := buffer + 8, buffer + 8 + maxLength;
    assert Text(DocumentIn(m, b, b + length, maxLength - length, e)) == m[b..b + length];
  }

  lemma NoKeys(start: Document, keys: seq<nat>)
    ensures AllApplied(start, keys[..0]) == start
  {
  }

  lemma MoreKeys(start: Document, keys: seq<nat>, n: nat)
    requires n < |keys| && ESCAPE_KEY !in keys[..n]
    ensures AllApplied(start, keys[..n + 1]) == Applied(AllApplied(start, keys[..n]), keys[n])
    ensures keys[n] != ESCAPE_KEY ==> ESCAPE_KEY !in keys[..n + 1]
  {
    hide Applied;
    assert keys[..n + 1][..n] == keys[..n];
  }

  lemma DocumentSize(m: seq<u8>, begin: nat, cursor: nat, gap: nat, end: nat)
    requires begin <= cursor && cursor + gap <= end <= |m|
    ensures var d := DocumentIn(m, begin, cursor, gap, end); |Text(d)| == end - gap - begin && d.room == gap
  {
  }

  /** With the cursor at the end of the text the text is in one piece. */
  lemma Escaped(m: seq<u8>, begin: nat, gap: nat, end: nat, d: Document)
    requires begin + gap <= end <= |m| && |Text(d)| >= end - gap - begin && d.room == gap
    requires DocumentIn(m, begin, end - gap, gap, end) == Moved(d, end - gap - begin)
    ensures m[begin..end - gap] == Text(d)
  {
  }

  lemma WordStored(m: seq<u8>, m1: seq<u8>, buffer: nat, size: u64)
    requires buffer + 8 + size <= |m| && m1 == Patched(m, buffer, LE64(size))
    ensures m1[buffer..buffer + 8] == LE64(size)
      && m1[buffer + 8..buffer + 8 + size] == m[buffer + 8..buffer + 8 + size]
    ensures OutsideSame(m, m1, buffer, buffer + 8)
  {
    hide LE64, Patched, OutsideSame;
    PatchedParts(m, buffer, LE64(size), buffer, buffer + 8);
    PatchedOutside(m, buffer, LE64(size), buffer + 8, size);
    PatchedSame(m, buffer, LE64(size), buffer, buffer + 8);
  }

  /** The text that the editor starts with. */
  ghost function Opening(m: seq<u8>, buffer: nat, length: nat, offset: nat, maxLength: nat): Document
    requires length <= maxLength && buffer + 8 + maxLength <= |m|
  {
    var text := m[buffer + 8..buffer + 8 + length];
    var at := if offset > length then length else offset;
    Document(text[..at], text[at..], maxLength - length)
  }

  lemma GapRight(m: seq<u8>, m1: seq<u8>, begin: nat, cursor: nat, gap: nat, end: nat, to: nat)
    requires begin <= cursor <= to && to + gap <= end <= |m| && m1 == Patched(m, cursor, m[cursor + gap..to + gap])
    ensures to - begin <= |Text(DocumentIn(m, begin, cursor, gap, end))|
    ensures DocumentIn(m1, begin, to, gap, end) == Moved(DocumentIn(m, begin, cursor, gap, end), to - begin)
  {
    var x, y := m[begin..cursor], m[cursor + gap..end];
    PatchedParts(m, cursor, m[cursor + gap..to + gap], begin, end);
    Adjoining(m1, begin, cursor, to);
    PartOfPart(m, cursor + gap, to + gap, end);
    assert m1[to + gap..end] == m[to + gap..end];
    SumParts(x, y, to - cursor);
  }

  lemma SumParts(x: seq<u8>, y: seq<u8>, k: nat)
    requires k <= |y|
    ensures (x + y)[..|x| + k] == x + y[..k] && (x + y)[|x| + k..] == y[k..]
  {
  }

  lemma GapLeft(m: seq<u8>, m1: seq<u8>, begin: nat, cursor: nat, gap: nat, end: nat, to: nat)
    requires begin <= to <= cursor && cursor + gap <= end <= |m| && m1 == Patched(m, to + gap, m[to..cursor])
    ensures to - begin <= |Text(DocumentIn(m, begin, cursor, gap, end))|
    ensures DocumentIn(m1, begin, to, gap, end) == Moved(DocumentIn(m, begin, cursor, gap, end), to - begin)
  {
    var x, y := m[begin..cursor], m[cursor + gap..end];
    PatchedParts(m, to + gap, m[to..cursor], to, end);
    Adjoining(m1, to + gap, cursor + gap, end);
    PartOfPart(m, begin, to, cursor);
    TakeDrop(x, y, to - begin);
    assert m1[begin..to] == m[begin..to];
  }

  /** One character back. */
  lemma BackStep(left: seq<u8>, p: nat, lines: nat)
    requires 0 < p <= |left|
    ensures var c := left[p - 1];
      LineStart(left[..p], lines)
      == (if c != ENTER_KEY then LineStart(left[..p - 1], lines) else if lines == 0 then p
        else LineStart(left[..p - 1], lines - 1))
      && Columns(left[..p]) == (if c == ENTER_KEY then 0 else Columns(left[..p - 1]) + if c == TAB_KEY then 2 else 1)
      && Lines(left[p - 1..]) == Lines(left[p..]) + if c == ENTER_KEY then 1 else 0
  {
    assert left[..p][..p - 1] == left[..p - 1];
    LinesPart(left[p - 1..], 1);
    LinesOne(left[p - 1..][..1]);
    assert left[p - 1..][1..] == left[p..];
  }

  lemma BackStart(left: seq<u8>)
    ensures left[..|left|] == left && Lines(left[|left|..]) == 0
  {
  }

  lemma NoText(left: seq<u8>, lines: nat)
    ensures LineStart(left[..0], lines) == 0 && Columns(left[..0]) == 0
  {
  }
}
