/** The text editor's in-place buffer, refined from a sequence with a cursor. */
module EditorBuffer {
  import opened Bytes

  const MAX_BYTES := 65536
  const NEWLINE: byte := 10

  const KEY_BACKSPACE := 8
  const KEY_CTRL_Q := 0x11
  const KEY_CTRL_S := 0x13
  const KEY_UP := 256
  const KEY_DOWN := 257
  const KEY_LEFT := 258
  const KEY_RIGHT := 259
  const KEY_HOME := 260
  const KEY_END := 261
  const KEY_DELETE := 262

  datatype Doc = Doc(text: seq<byte>, cursor: nat)

  ghost predicate DocOk(d: Doc) { d.cursor <= |d.text| <= MAX_BYTES }

  /** The position right after the last newline before `pos`. */
  function LineStart(text: seq<byte>, pos: nat): (r: nat)
    requires pos <= |text|
    ensures r <= pos && (r > 0 ==> text[r - 1] == NEWLINE) && forall i | r <= i < pos :: text[i] != NEWLINE
  {
    if pos == 0 || text[pos - 1] == NEWLINE then pos else LineStart(text, pos - 1)
  }

  /** The position of the first newline at or after `pos`, or the end. */
  function LineEnd(text: seq<byte>, pos: nat): (r: nat)
    requires pos <= |text|
    ensures pos <= r <= |text| && (r < |text| ==> text[r] == NEWLINE) && forall i | pos <= i < r :: text[i] != NEWLINE
    decreases |text| - pos
  {
    if pos == |text| || text[pos] == NEWLINE then pos else LineEnd(text, pos + 1)
  }

  function Insert(d: Doc, b: byte): Doc
    requires d.cursor <= |d.text|
  {
    if |d.text| >= MAX_BYTES then d else Doc(d.text[..d.cursor] + [b] + d.text[d.cursor..], d.cursor + 1)
  }

  function Backspace(d: Doc): Doc
    requires d.cursor <= |d.text|
  {
    if d.cursor == 0 then d else Doc(d.text[..d.cursor - 1] + d.text[d.cursor..], d.cursor - 1)
  }

  function Delete(d: Doc): Doc
    requires d.cursor <= |d.text|
  {
    if d.cursor >= |d.text| then d else Doc(d.text[..d.cursor] + d.text[d.cursor + 1..], d.cursor)
  }

  /** The column of the cursor in its line. */
  function Column(d: Doc): nat
    requires d.cursor <= |d.text|
  {
    d.cursor - LineStart(d.text, d.cursor)
  }

  function Up(d: Doc): Doc
    requires d.cursor <= |d.text|
  {
    var start := LineStart(d.text, d.cursor);
    if start == 0 then d
    else
      var prev := LineStart(d.text, start - 1);
      d.(cursor := prev + Min(Column(d), start - 1 - prev))
  }

  function Down(d: Doc): Doc
    requires d.cursor <= |d.text|
  {
    var end := LineEnd(d.text, d.cursor);
    if end == |d.text| then d
    else d.(cursor := end + 1 + Min(Column(d), LineEnd(d.text, end + 1) - (end + 1)))
  }

  predicate Typed(key: nat) { key == 10 || key == 9 || 32 <= key <= 126 }

  function Apply(d: Doc, key: nat): Doc
    requires d.cursor <= |d.text|
  {
    if key == KEY_LEFT then d.(cursor := if d.cursor == 0 then 0 else d.cursor - 1)
    else if key == KEY_RIGHT then d.(cursor := Min(d.cursor + 1, |d.text|))
    else if key == KEY_HOME then d.(cursor := LineStart(d.text, d.cursor))
    else if key == KEY_END then d.(cursor := LineEnd(d.text, d.cursor))
    else if key == KEY_UP then Up(d)
    else if key == KEY_DOWN then Down(d)
    else if key == KEY_DELETE then Delete(d)
    else if key == KEY_BACKSPACE then Backspace(d)
    else if Typed(key) then Insert(d, key)
    else d
  }

  // ----- what editing keeps -----

  lemma ApplyKeeps(d: Doc, key: nat)
    requires DocOk(d)
    ensures DocOk(Apply(d, key))
  {
  }

  ghost function Edited(d: Doc, keys: seq<nat>): Doc
    requires DocOk(d)
    decreases |keys|
  {
    if keys == [] then d
    else
      ApplyKeeps(d, keys[0]);
      Edited(Apply(d, keys[0]), keys[1..])
  }

  lemma {:induction false} EditedKeeps(d: Doc, keys: seq<nat>)
    requires DocOk(d)
    ensures DocOk(Edited(d, keys))
    decreases |keys|
  {
    if keys != [] {
      ApplyKeeps(d, keys[0]);
      EditedKeeps(Apply(d, keys[0]), keys[1..]);
    }
  }

  // ----- what each key does, on the bytes -----

  /** A printable byte, a tab or a newline goes in at the cursor; a full buffer takes none. */
  lemma TypedKey(d: Doc, key: nat)
    requires DocOk(d) && (key == 9 || key == 10 || 32 <= key <= 126)
    ensures var t, t', c := d.text, Apply(d, key).text, d.cursor;
            if |t| == 65536 then Apply(d, key) == d
            else
              && |t'| == |t| + 1 && t'[c] == key && t'[..c] == t[..c] && t'[c + 1..] == t[c..]
              && Apply(d, key).cursor == c + 1
  {
  }

  /** Delete takes the byte at the cursor, Backspace the one before it; at the end of the text, or its
      start, there is none. */
  lemma ErasingKeys(d: Doc)
    requires DocOk(d)
    ensures var t, t', c := d.text, Apply(d, 262).text, d.cursor;
            && Apply(d, 262).cursor == c
            && if c == |t| then t' == t else |t'| == |t| - 1 && t'[..c] == t[..c] && t'[c..] == t[c + 1..]
    ensures var t, t', c := d.text, Apply(d, 8).text, d.cursor;
            if c == 0 then Apply(d, 8) == d
            else Apply(d, 8).cursor == c - 1 && |t'| == |t| - 1 && t'[..c - 1] == t[..c - 1] && t'[c - 1..] == t[c..]
  {
  }

  /** Left, Right, Home and End move the cursor: by one, within the text, or to the ends of its line. */
  lemma MovingKeys(d: Doc)
    requires DocOk(d)
    ensures forall key | 258 <= key <= 261 :: Apply(d, key).text == d.text
    ensures Apply(d, 258).cursor == if d.cursor > 0 then d.cursor - 1 else 0
    ensures Apply(d, 259).cursor == if d.cursor < |d.text| then d.cursor + 1 else d.cursor
    ensures var h := Apply(d, 260).cursor;
            h <= d.cursor && (h == 0 || d.text[h - 1] == 10) && forall i | h <= i < d.cursor :: d.text[i] != 10
    ensures var e := Apply(d, 261).cursor;
            d.cursor <= e <= |d.text| && (e == |d.text| || d.text[e] == 10) && forall i | d.cursor <= i < e ::
                d.text[i] != 10
  {
    hide LineStart, LineEnd;
  }

  /** Every other key but Up and Down is ignored. */
  lemma OtherKeys(d: Doc, key: nat)
    requires DocOk(d) && key !in {8, 9, 10, 256, 257, 258, 259, 260, 261, 262} && !(32 <= key <= 126)
    ensures Apply(d, key) == d
  {
  }

  /** A text typed into the buffer, as long as it fits, stands where the cursor was. */
  lemma {:induction false} TypedText(d: Doc, keys: seq<byte>)
    requires DocOk(d) && |d.text| + |keys| <= 65536
    requires forall i | 0 <= i < |keys| :: keys[i] == 9 || keys[i] == 10 || 32 <= keys[i] <= 126
    ensures Edited(d, keys) == Doc(d.text[..d.cursor] + keys + d.text[d.cursor..], d.cursor + |keys|)
    decreases |keys|
  {
    var t, c := d.text, d.cursor;
    if keys == [] {
      assert t[..c] + keys + t[c..] == t;
    } else {
      var d1 := Apply(d, keys[0]);
      TypedKey(d, keys[0]);
      ApplyKeeps(d, keys[0]);
      hide Apply;
      TypedText(d1, keys[1..]);
      Inserted(t, c, keys, d1.text);
    }
  }

  lemma Inserted(t: seq<byte>, c: nat, keys: seq<byte>, t1: seq<byte>)
    requires c <= |t| && keys != [] && |t1| == |t| + 1
    requires t1[c] == keys[0] && t1[..c] == t[..c] && t1[c + 1..] == t[c..]
    ensures t1[..c + 1] + keys[1..] + t1[c + 1..] == t[..c] + keys + t[c..]
  {
    assert t1[..c + 1] == t[..c] + [keys[0]];
    assert keys == [keys[0]] + keys[1..];
  }

  /** Nothing else gets into a text: every byte of it was there or was typed. */
  lemma {:induction false} EditedFrom(d: Doc, keys: seq<nat>)
    requires DocOk(d)
    ensures forall b | b in Edited(d, keys).text :: b in d.text || b in keys
    decreases |keys|
  {
    if keys != [] {
      ApplyKeeps(d, keys[0]);
      assert forall b | b in Apply(d, keys[0]).text :: b in d.text || b == keys[0];
      hide Apply;
      EditedFrom(Apply(d, keys[0]), keys[1..]);
    }
  }

  /** Typing and taking it back is the identity, unless the buffer is full. */
  lemma TypeThenBackspace(d: Doc, key: nat)
    requires DocOk(d) && Typed(key) && |d.text| < MAX_BYTES
    ensures DocOk(Apply(d, key)) && Apply(Apply(d, key), KEY_BACKSPACE) == d
  {
    var t := d.text[..d.cursor] + [key] + d.text[d.cursor..];
    assert t[..d.cursor] + t[d.cursor + 1..] == d.text;
  }

  lemma StartUnique(text: seq<byte>, pos: nat, r: nat)
    requires r <= pos <= |text| && (r > 0 ==> text[r - 1] == NEWLINE) && forall i | r <= i < pos :: text[i] != NEWLINE
    ensures LineStart(text, pos) == r
  {
  }

  lemma EndUnique(text: seq<byte>, pos: nat, r: nat)
    requires pos <= r <= |text| && (r < |text| ==> text[r] == NEWLINE) && forall i | pos <= i < r :: text[i] != NEWLINE
    ensures LineEnd(text, pos) == r
  {
  }

  lemma EndBeyond(text: seq<byte>, pos: nat, c: nat)
    requires pos <= c <= |text| && forall i | pos <= i < c :: text[i] != NEWLINE
    ensures LineEnd(text, pos) >= c
  {
  }

  /** From a line that has one above it, Up then Down returns to the start if and only if the line
      above is at least as long as the cursor's column. */
  lemma UpThenDown(d: Doc)
    requires DocOk(d) && LineStart(d.text, d.cursor) > 0
    ensures var start := LineStart(d.text, d.cursor);
            var prev := LineStart(d.text, start - 1);
            Up(d).cursor <= |d.text| && (Down(Up(d)) == d <==> Column(d) <= start - 1 - prev)
  {
    hide LineStart, LineEnd;
    var text, c := d.text, d.cursor;
    var start := LineStart(text, c);
    var prev := LineStart(text, start - 1);
    var up := Up(d);
    StartUnique(text, up.cursor, prev);
    EndUnique(text, up.cursor, start - 1);
    EndBeyond(text, start, c);
  }

  /** The line number of `pos`: the newlines before it. */
  function Row(text: seq<byte>, pos: nat): nat
    requires pos <= |text|
  {
    if pos == 0 then 0 else Row(text, pos - 1) + if text[pos - 1] == NEWLINE then 1 else 0
  }

  lemma {:induction false} RowSame(text: seq<byte>, a: nat, b: nat)
    requires a <= b <= |text| && forall i | a <= i < b :: text[i] != NEWLINE
    ensures Row(text, b) == Row(text, a)
    decreases b
  {
    if a < b {
      RowSame(text, a, b - 1);
    }
  }

  /** Up moves to the line above, to the same column or the end of that line; on the first line it
      does nothing. */
  lemma UpOneRow(d: Doc)
    requires DocOk(d)
    ensures var u := Up(d);
            && u.text == d.text && u.cursor <= |d.text|
            && if Row(d.text, d.cursor) == 0 then u == d
               else Row(d.text, u.cursor) == Row(d.text, d.cursor) - 1
                    && Column(u) == Min(Column(d), LineEnd(d.text, u.cursor) - LineStart(d.text, u.cursor))
  {
    hide LineStart, LineEnd;
    var text, c := d.text, d.cursor;
    var start := LineStart(text, c);
    RowSame(text, start, c);
    if start > 0 {
      var prev, up := LineStart(text, start - 1), Up(d).cursor;
      RowSame(text, prev, start - 1);
      RowSame(text, prev, up);
      StartUnique(text, up, prev);
      EndUnique(text, up, start - 1);
    }
  }

  /** Down moves to the line below, likewise; on the last line it does nothing. */
  lemma DownOneRow(d: Doc)
    requires DocOk(d)
    ensures var u := Down(d);
            && u.text == d.text && u.cursor <= |d.text|
            && if Row(d.text, d.cursor) == Row(d.text, |d.text|) then u == d
               else Row(d.text, u.cursor) == Row(d.text, d.cursor) + 1
                    && Column(u) == Min(Column(d), LineEnd(d.text, u.cursor) - LineStart(d.text, u.cursor))
  {
    hide LineStart, LineEnd;
    var text, c := d.text, d.cursor;
    var end := LineEnd(text, c);
    RowSame(text, c, end);
    if end < |text| {
      var last, down := LineEnd(text, end + 1), Down(d).cursor;
      RowSame(text, end + 1, down);
      StartUnique(text, down, end + 1);
      EndUnique(text, down, last);
      RowGrows(text, end + 1, |text|);
    }
  }

  lemma {:induction false} RowGrows(text: seq<byte>, a: nat, b: nat)
    requires a <= b <= |text|
    ensures Row(text, a) <= Row(text, b)
    decreases b
  {
    if a < b {
      RowGrows(text, a, b - 1);
    }
  }

  // ----- the buffer in place -----

  class Editor {
    const buf: array<byte>
    var len: nat
    var cursor: nat

    ghost predicate Valid()
      reads this
    {
      buf.Length == MAX_BYTES && cursor <= len <= MAX_BYTES
    }

    ghost function View(): (d: Doc)
      reads this, buf
      requires Valid()
      ensures DocOk(d)
    {
      Doc(buf[..len], cursor)
    }

    constructor ()
      ensures Valid() && fresh(buf) && View() == Doc([], 0)
    {
      buf := new byte[MAX_BYTES](_ => 0);
      len, cursor := 0, 0;
    }

    method Reset()
      requires Valid()
      modifies this
      ensures Valid() && View() == Doc([], 0)
    {
      len, cursor := 0, 0;
    }

    /** Appends as much of `data` as fits; false if some of it did not. */
    method AppendLoaded(data: seq<byte>) returns (all: bool)
      requires Valid()
      modifies this, buf
      ensures Valid() && all == (|old(View()).text| + |data| <= MAX_BYTES)
      ensures View() == old(View()).(text := (old(View()).text + data)[..Min(|old(View()).text| + |data|, MAX_BYTES)])
    {
      var n, start := Min(|data|, MAX_BYTES - len), len;
      var i := 0;
      while i < n
        invariant i <= n && buf[..start + i] == old(buf[..len]) + data[..i]
        invariant Valid() && len == start && cursor == old(cursor)
      {
        buf[start + i] := data[i];
        i := i + 1;
      }
      len := len + n;
      all := n == |data|;
      assert old(buf[..len]) + data[..n] == (old(View()).text + data)[..start + n];
    }

    method StartOf(pos: nat) returns (i: nat)
      requires Valid() && pos <= len
      ensures i == LineStart(View().text, pos)
    {
      i := pos;
      while i > 0 && buf[i - 1] != NEWLINE
        invariant i <= pos && LineStart(View().text, i) == LineStart(View().text, pos)
      {
        i := i - 1;
      }
    }

    method EndOf(pos: nat) returns (i: nat)
      requires Valid() && pos <= len
      ensures i == LineEnd(View().text, pos)
    {
      i := pos;
      while i < len && buf[i] != NEWLINE
        invariant pos <= i <= len && LineEnd(View().text, i) == LineEnd(View().text, pos)
      {
        i := i + 1;
      }
    }

    method InsertByte(b: byte)
      requires Valid()
      modifies this, buf
      ensures Valid() && View() == Insert(old(View()), b)
    {
      if len < MAX_BYTES {
        var i := len;
        while i > cursor
          invariant cursor <= i <= len && len == old(len) < MAX_BYTES && cursor == old(cursor)
          invariant forall j | 0 <= j < i :: buf[j] == old(buf[j])
          invariant forall j | i < j <= len :: buf[j] == old(buf[j - 1])
        {
          buf[i] := buf[i - 1];
          i := i - 1;
        }
        buf[cursor] := b;
        len := len + 1;
        cursor := cursor + 1;
        assert buf[..len] == old(buf[..cursor]) + [b] + old(buf[cursor..len]);
        assert old(View()).text[old(cursor)..] == old(buf[cursor..len]);
        assert old(View()).text[..old(cursor)] == old(buf[..cursor]);
      }
    }

    /** Shifts everything from `from` on one place to the left. */
    method CloseGap(from: nat)
      requires Valid() && 0 < from <= len
      modifies `len, buf
      ensures buf[..from - 1] == old(buf[..from - 1]) && len == old(len) - 1
              && buf[from - 1..len] == old(buf[from..len])
    {
      var i := from;
      while i < len
        invariant from <= i <= len && len == old(len)
        invariant forall j | 0 <= j < from - 1 :: buf[j] == old(buf[j])
        invariant forall j | from - 1 <= j < i - 1 :: buf[j] == old(buf[j + 1])
        invariant forall j | i - 1 <= j < MAX_BYTES :: buf[j] == old(buf[j])
      {
        buf[i - 1] := buf[i];
        i := i + 1;
      }
      len := len - 1;
    }

    method BackspaceKey()
      requires Valid()
      modifies this, buf
      ensures Valid() && View() == Backspace(old(View()))
    {
      if cursor > 0 {
        ghost var t := buf[..len];
        CloseGap(cursor);
        assert buf[..len] == buf[..cursor - 1] + buf[cursor - 1..len];
        assert t[..cursor - 1] == old(buf[..cursor - 1]) && t[cursor..] == old(buf[cursor..len]);
        cursor := cursor - 1;
      }
    }

    method DeleteForward()
      requires Valid()
      modifies this, buf
      ensures Valid() && View() == Delete(old(View()))
    {
      if cursor < len {
        ghost var t := buf[..len];
        CloseGap(cursor + 1);
        assert buf[..len] == buf[..cursor] + buf[cursor..len];
        assert t[..cursor] == old(buf[..cursor]) && t[cursor + 1..] == old(buf[cursor + 1..len]);
      }
    }

    method GoUp()
      requires Valid()
      modifies `cursor
      ensures Valid() && View() == Up(old(View()))
    {
      var start := StartOf(cursor);
      var col := cursor - start;
      if start > 0 {
        var prevEnd := start - 1;
        var prev := StartOf(prevEnd);
        cursor := prev + Min(col, prevEnd - prev);
      }
    }

    method GoDown()
      requires Valid()
      modifies `cursor
      ensures Valid() && View() == Down(old(View()))
    {
      var start := StartOf(cursor);
      var col := cursor - start;
      var end := EndOf(cursor);
      if end < len {
        var next := end + 1;
        var nextEnd := EndOf(next);
        cursor := next + Min(col, nextEnd - next);
      }
    }

    /** One key: true saves and quits, false quits, nothing keeps editing. */
    method ApplyKey(key: nat) returns (quit: Option<bool>)
      requires Valid()
      modifies this, buf
      ensures Valid() && View() == Apply(old(View()), key)
      ensures quit == if key == 0x13 then Some(true) else if key == 0x11 then Some(false) else None
    {
      hide LineStart, LineEnd, Insert, Backspace, Delete, Up, Down;
      quit := None;
      if key == KEY_CTRL_S {
        quit := Some(true);
      } else if key == KEY_CTRL_Q {
        quit := Some(false);
      } else if key == KEY_LEFT {
        cursor := if cursor == 0 then 0 else cursor - 1;
      } else if key == KEY_RIGHT {
        cursor := Min(cursor + 1, len);
      } else if key == KEY_HOME {
        cursor := StartOf(cursor);
      } else if key == KEY_END {
        cursor := EndOf(cursor);
      } else if key == KEY_UP {
        GoUp();
      } else if key == KEY_DOWN {
        GoDown();
      } else if key == KEY_DELETE {
        DeleteForward();
      } else if key == KEY_BACKSPACE {
        BackspaceKey();
      } else if key < 256 && Typed(key) {
        InsertByte(key);
      }
    }
  }
}
