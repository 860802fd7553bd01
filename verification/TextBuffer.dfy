/** The cursor-and-remaining-size discipline of Utils_ConcatenateToString over a caller's buffer. */
module TextBuffer {
  import opened Common

  function Min(a: nat, b: nat): nat {
    if a < b then a else b
  }

  /**
   * vsnprintf at the cursor: at most `size` bytes are written, the last one a NUL. The cursor moves only when all fits.
   * The memory touched must exist, whatever `size` claims.
   */
  method ConcatenateToString(buffer: array<char>, cursor: nat, size: u32, text: string)
    returns (ok: bool, newCursor: nat, newSize: u32)
    requires cursor + Min(|text| + 1, size) <= buffer.Length
    modifies buffer
    ensures ok <==> |text| < size
    ensures ok ==> newCursor == cursor + |text| && newSize == size - |text|
    ensures ok ==> buffer[cursor..newCursor] == text && buffer[newCursor] == '\0'
    ensures !ok ==> newCursor == cursor && newSize == size
    ensures buffer[..cursor] == old(buffer[..cursor])
    ensures forall i | cursor + Min(|text| + 1, size) <= i < buffer.Length :: buffer[i] == old(buffer[i])
  {
    if size > 0 {
      var count := Min(|text|, size - 1);
      forall i | 0 <= i < count {
        buffer[cursor + i] := text[i];
      }
      buffer[cursor + count] := '\0';
    }
    if |text| >= size {
      return false, cursor, size;
    }
    return true, cursor + |text|, size - |text|;
  }

  /** A whole text printed at the start of a buffer. */
  method PrintText(buffer: array<char>, size: u32, text: string) returns (ok: bool)
    requires size <= buffer.Length
    modifies buffer
    ensures ok <==> |text| < size
    ensures ok ==> buffer[..|text|] == text && buffer[|text|] == '\0'
  {
    var success, cursor, _ := ConcatenateToString(buffer, 0, size, text);
    ok := success;
    assert ok ==> buffer[..cursor] == buffer[0..cursor];
  }
}
