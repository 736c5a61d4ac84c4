/** fmt's output buffers that stop delivering after n characters
    (fmt-11.2.0/include/fmt/base.h:1745-1841, 1849-1956, 2866-2874). */
module TruncatingBuffer {

  const BUFFER_SIZE: nat := 256

  /** The first n characters of s, or all of it. */
  function Prefix(s: string, n: nat): string {
    if |s| <= n then s else s[..n]
  }

  function Min(a: nat, b: nat): nat { if a <= b then a else b }

  /** One call that a formatter makes on its buffer. */
  datatype Call = PushBack(c: char) | Append(s: string) {
    function Text(): string {
      match this
      case PushBack(c) => [c]
      case Append(s) => s
    }
  }

  /** Everything a formatter writes. */
  function Total(calls: seq<Call>): string {
    if calls == [] then "" else Total(calls[..|calls| - 1]) + calls[|calls| - 1].Text()
  }

  /** iterator_buffer with fixed_buffer_traits.  With `direct` it is the specialization for a
      pointer, which first fills the destination itself and then discards into its own storage;
      otherwise it collects in its own storage and copies to an output iterator when flushed. */
  class IteratorBuffer {
    const direct: bool
    /** fixed_buffer_traits: limit_ and count_. */
    const limit_: nat
    var count_: nat
    /** buffer: ptr_ is `dest` while atOut and `data_` after that. */
    var atOut: bool
    var size_: nat
    var capacity_: nat
    const data_: array<char>
    /** The memory a pointer iterator points to, and how far the pointer has advanced. */
    const dest: array<char>
    var out_: nat
    /** What another output iterator has been given. */
    var sink: string

    /** Everything written so far, and the destination as it was at first. */
    ghost var input: string
    ghost const before: string

    /** The memory ptr_ points to. */
    function Mem(): array<char>
      reads this`atOut
    {
      if atOut then dest else data_
    }

    ghost predicate Valid()
      reads this, data_, dest
    {
      && data_ != dest && data_.Length == BUFFER_SIZE
      && count_ + size_ == |input| && size_ <= capacity_ <= Mem().Length
      && Mem()[..size_] == input[count_..]
      && if direct then
           && limit_ <= dest.Length == |before|
           && (if atOut then count_ == 0 && capacity_ == limit_ && out_ == 0
               else capacity_ == BUFFER_SIZE && limit_ <= count_ && out_ == limit_)
           && dest[..] == Prefix(input, limit_) + before[|Prefix(input, limit_)|..]
         else
           && !atOut && capacity_ == BUFFER_SIZE && sink == Prefix(input[..count_], limit_)
    }

    /** The constructor for an output iterator. */
    constructor ToIterator(n: nat)
      ensures Valid() && !direct && limit_ == n && input == "" && fresh(data_) && fresh(dest)
    {
      direct, limit_, count_, atOut, size_, capacity_ := false, n, 0, false, 0, BUFFER_SIZE;
      data_ := new char[BUFFER_SIZE];
      dest := new char[0];
      out_, sink, input, before := 0, "", "", "";
    }

    /** The constructor for a pointer to at least n characters. */
    constructor ToPointer(out: array<char>, n: nat)
      requires n <= out.Length
      ensures Valid() && direct && limit_ == n && input == "" && fresh(data_) && dest == out && before == out[..]
    {
      direct, limit_, count_, atOut, size_, capacity_ := true, n, 0, true, 0, n;
      data_ := new char[BUFFER_SIZE];
      dest := out;
      out_, sink, input, before := 0, "", "", out[..];
    }

    /** fixed_buffer_traits::limit, base.h:1866-1870. */
    method Limit(size: nat) returns (r: nat)
      modifies this`count_
      ensures count_ == old(count_) + size
      ensures r == Min(count_, limit_) - Min(old(count_), limit_)
    {
      var n := if limit_ > count_ then limit_ - count_ else 0;
      count_ := count_ + size;
      r := if size <= n then size else n;
    }

    /** Both flush functions, base.h:1885-1891 and 1926-1933.  A pointer buffer may only be flushed
        when it is full, or for the last time. */
    method Flush()
      requires Valid()
      modifies this
      ensures size_ == 0 && input == old(input) && count_ == |input|
      ensures !direct || !atOut
      ensures (direct ==> |input| >= limit_) ==> Valid()
      ensures direct ==>
                && out_ == |Prefix(input, limit_)|
                && dest[..] == Prefix(input, limit_) + before[|Prefix(input, limit_)|..]
      ensures !direct ==> sink == Prefix(input, limit_)
    {
      var n := Limit(size_);
      if direct {
        if atOut {
          out_ := out_ + n;
          atOut, capacity_ := false, BUFFER_SIZE;
        }
      } else {
        sink := sink + data_[..n];
      }
      size_ := 0;
      assert input[..count_] == input;
    }

    /** Both grow functions, base.h:1881-1883 and 1921-1924: flush if the buffer is full. */
    method Grow()
      requires Valid()
      modifies this
      ensures Valid() && size_ < capacity_ && input == old(input)
    {
      if size_ == capacity_ {
        Flush();
      }
    }

    /** base.h:1812-1814 */
    method TryReserve(newCapacity: nat)
      requires Valid() && newCapacity > size_
      modifies this
      ensures Valid() && size_ < capacity_ && input == old(input)
    {
      if newCapacity > capacity_ {
        Grow();
      }
    }

    /** buffer::push_back, base.h:1816-1819. */
    method PushBack(value: char)
      requires Valid()
      modifies this, data_, dest
      ensures Valid() && input == old(input) + [value]
    {
      TryReserve(size_ + 1);
      Store([value]);
    }

    /** Copy characters that fit behind the ones in the buffer, base.h:1832-1835. */
    method Store(s: string)
      requires Valid() && size_ + |s| <= capacity_
      modifies this`size_, this`input, Mem()
      ensures Valid() && input == old(input) + s
    {
      Copy(Mem(), size_, s);
      assert (input + s)[count_..] == input[count_..] + s;
      if direct && atOut {
        assert Prefix(input + s, limit_) == input + s;
      } else if direct {
        assert Prefix(input + s, limit_) == Prefix(input, limit_);
      } else {
        assert (input + s)[..count_] == input[..count_];
      }
      size_ := size_ + |s|;
      input := input + s;
    }

    static method Copy(mem: array<char>, at: nat, s: string)
      requires at + |s| <= mem.Length
      modifies mem
      ensures mem[..at + |s|] == old(mem[..at]) + s && mem[at + |s|..] == old(mem[at + |s|..])
    {
      forall i | 0 <= i < |s| { mem[at + i] := s[i]; }
    }

    /** buffer::append, base.h:1816-1841: it ends, because each turn finds room for a character. */
    method Append(s: string)
      requires Valid()
      modifies this, data_, dest
      ensures Valid() && input == old(input) + s
    {
      var rest := s;
      while rest != ""
        invariant Valid() && input + rest == old(input) + s
        decreases |rest|
      {
        var count := |rest|;
        TryReserve(size_ + count);
        var freeCap := capacity_ - size_;
        if freeCap < count { count := freeCap; }
        Store(rest[..count]);
        rest := rest[count..];
      }
    }

    /** iterator_buffer::count, base.h:1910, 1953-1955. */
    method Count() returns (n: nat)
      requires count_ + size_ == |input|
      ensures n == |input|
    {
      n := count_ + size_;
    }
  }

  /** vformat_to_n for an output iterator, base.h:2866-2874, with any formatter: the iterator gets
      exactly the first n characters, and the size is that of the whole output. */
  method FormatToIterator(n: nat, calls: seq<Call>) returns (delivered: string, size: nat)
    ensures delivered == Prefix(Total(calls), n) && size == |Total(calls)|
  {
    var buf := new IteratorBuffer.ToIterator(n);
    VFormatTo(buf, calls);
    buf.Flush();
    delivered := buf.sink;
    size := buf.Count();
  }

  /** vformat_to_n for a pointer: the first n characters are at the destination, nothing behind them
      changed, and the returned pointer is just past them. */
  method FormatToPointer(out: array<char>, n: nat, calls: seq<Call>) returns (past: nat, size: nat)
    requires n <= out.Length
    modifies out
    ensures past == Min(n, |Total(calls)|) && size == |Total(calls)|
    ensures out[..past] == Prefix(Total(calls), n) && out[past..] == old(out[past..])
  {
    var buf := new IteratorBuffer.ToPointer(out, n);
    VFormatTo(buf, calls);
    buf.Flush();
    past := buf.out_;
    size := buf.Count();
  }

  /** Whatever a formatter does with its buffer. */
  method VFormatTo(buf: IteratorBuffer, calls: seq<Call>)
    requires buf.Valid() && buf.input == ""
    modifies buf, buf.data_, buf.dest
    ensures buf.Valid() && buf.input == Total(calls)
  {
    for i := 0 to |calls|
      invariant buf.Valid() && buf.input == Total(calls[..i])
    {
      assert calls[..i + 1][..i] == calls[..i];
      match calls[i]
      case PushBack(c) => buf.PushBack(c);
      case Append(s) => buf.Append(s);
    }
    assert calls[..|calls|] == calls;
  }
}
