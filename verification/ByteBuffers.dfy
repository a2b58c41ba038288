/** The ByteWriter and ByteReader of the parser-module blocks. */
module ByteBuffers {
  import opened Prelude
  import opened LittleEndian

  class ByteWriter {
    var out: Bytes

    constructor ()
      ensures out == []
    {
      out := [];
    }

    /** `rest` is what the caller has still to write after the word. */
    method Word(value: nat, size: nat, ghost rest: Bytes := [])
      modifies this
      ensures out == old(out) + EncLittle(value, size)
      ensures out + rest == old(out) + (EncLittle(value, size) + rest)
    {
      var left := value;
      for shift := 0 to size
        invariant out + EncLittle(left, size - shift) == old(out) + EncLittle(value, size)
      {
        assert out + EncLittle(left, size - shift) == (out + [left % 0x100]) + EncLittle(left / 0x100, size - shift - 1);
        out := out + [left % 0x100];
        left := left / 0x100;
      }
    }

    method Zeros(count: nat)
      modifies this
      ensures out == old(out) + seq(count, _ => 0)
    {
      out := out + seq(count, _ => 0);
    }

    method Append(value: Bytes)
      modifies this
      ensures out == old(out) + value
    {
      if |value| != 0 {
        out := out + value;
      }
    }
  }

  class ByteReader {
    const bytes: Bytes
    var position: nat

    ghost predicate Valid()
      reads this
    {
      position <= |bytes|
    }

    constructor (bytes: Bytes)
      ensures Valid() && this.bytes == bytes && position == 0
    {
      this.bytes := bytes;
      position := 0;
    }

    function Remaining(): nat
      requires Valid()
      reads this
    {
      |bytes| - position
    }

    /** A word of the given size, or nothing moved. */
    method Word(size: nat) returns (ok: bool, value: nat)
      requires Valid()
      modifies this
      ensures Valid() && (ok <==> old(position) + size <= |bytes|)
      ensures if ok then position == old(position) + size && value == WordAt(bytes, old(position), size)
              else position == old(position)
    {
      ok, value := Remaining() >= size, 0;
      if !ok {
        return;
      }
      ghost var word := bytes[position..position + size];
      var index := size;
      while index > 0
        invariant 0 <= index <= size && value == DecLittle(word[index..])
      {
        index := index - 1;
        assert word[index..][0] == bytes[position + index] && word[index..][1..] == word[index + 1..];
        value := bytes[position + index] + 0x100 * value;
      }
      assert word[0..] == word;
      position := position + size;
    }

    /** Moves over `count` bytes, of which a view is the range passed over. */
    method Take(count: nat) returns (ok: bool)
      requires Valid()
      modifies this
      ensures Valid() && (ok <==> old(position) + count <= |bytes|)
      ensures position == if ok then old(position) + count else old(position)
    {
      ok := count <= Remaining();
      if ok {
        position := position + count;
      }
    }
  }
}
