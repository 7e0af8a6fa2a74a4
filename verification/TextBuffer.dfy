/** A character buffer with a length, as the C code passes around: `char *d, unsigned long cap, unsigned long *len`. */
module TextBuffer {
  import opened CText

  class Buffer {
    const data: array<char>
    var len: nat

    ghost predicate Valid()
      reads this, data
    {
      len < data.Length && data[len] == '\0'
    }

    ghost function Text(): string
      requires Valid()
      reads this, data
    {
      data[..len]
    }

    /** The longest text the buffer can hold. */
    function Max(): int { data.Length - 1 }

    constructor (cap: nat)
      requires cap > 0
      ensures Valid() && Text() == "" && data.Length == cap && fresh(data)
    {
      data := new char[cap];
      len := 0;
      new;
      data[0] := '\0';
    }

    method Reset()
      requires Valid()
      modifies this, data
      ensures Valid() && Text() == ""
    {
      len := 0;
      data[0] := '\0';
    }

    /** Appends one character unless the buffer is full. */
    method Put(c: char)
      requires Valid()
      modifies this, data
      ensures Valid() && Text() == Clip(old(Text()) + [c], Max())
    {
      if len + 1 >= data.Length {
        return;
      }
      data[len] := c;
      len := len + 1;
      data[len] := '\0';
    }

    /** Appends as many characters as there is room for, and says whether that was all of them. */
    method Append(s: string) returns (whole: bool)
      requires Valid()
      modifies this, data
      ensures Valid() && Text() == Clip(old(Text()) + s, Max())
      ensures whole <==> |old(Text())| + |s| <= Max()
    {
      var i := 0;
      while i < |s| && len + 1 < data.Length
        invariant i <= |s| && len < data.Length && len == old(len) + i
        invariant data[..len] == old(Text()) + s[..i]
      {
        data[len] := s[i];
        i := i + 1;
        len := len + 1;
      }
      data[len] := '\0';
      whole := i == |s|;
      assert s[..|s|] == s;
    }

    /** Appends all of `s` or nothing. */
    method AppendWhole(s: string) returns (ok: bool)
      requires Valid()
      modifies this, data
      ensures Valid() && Text() == if ok then old(Text()) + s else old(Text())
      ensures ok <==> |old(Text())| + |s| <= Max()
    {
      if len + |s| + 1 > data.Length {
        return false;
      }
      var i := 0;
      while i < |s|
        invariant i <= |s| && len == old(len) + i && len + |s| - i < data.Length
        invariant data[..len] == old(Text()) + s[..i]
      {
        data[len] := s[i];
        i := i + 1;
        len := len + 1;
      }
      data[len] := '\0';
      return true;
    }
  }
}
