/** The fixed-capacity `vector<ty, n>` (an array of n cells and a size)
    and the `fixed_string<n>` built on it. The capacity n is a template
    parameter in C++ and a constant field here. */
module Containers {
  import Algo

  class Vector<T(==)> {
    const capacity: nat
    var cells: array<T>   // m_arr
    var size: nat         // m_size

    ghost predicate Valid()
      reads this
    {
      cells.Length == capacity && size <= capacity
    }

    /** The elements [begin(), end()). */
    ghost function Elements(): seq<T>
      reads this, cells
      requires Valid()
    {
      cells[..size]
    }

    /** A value-initialised vector: `m_arr{}` gives every cell the value
        `zero` of the element type (the C++ `ty{}`), `m_size{ 0u }`. */
    constructor (capacity: nat, zero: T)
      ensures Valid() && fresh(cells)
      ensures this.capacity == capacity && size == 0
      ensures cells[..] == seq(capacity, _ => zero)
    {
      this.capacity := capacity;
      cells := new T[capacity](_ => zero);
      size := 0;
    }

    /** The vectors of the two 0_start versions have no constructor and
        no member initialisers: their cells and size start indeterminate.
        Whatever they hold is given here; the vector is only usable
        (Valid) when that size lies within the capacity. */
    constructor Indeterminate(capacity: nat, contents: seq<T>, size: nat)
      requires |contents| == capacity
      ensures fresh(cells) && this.capacity == capacity && this.size == size
      ensures cells[..] == contents
      ensures Valid() <==> size <= capacity
    {
      this.capacity := capacity;
      cells := new T[capacity](k requires 0 <= k < capacity => contents[k]);
      this.size := size;
    }

    /** `begin()` and `end()` as indices into the cells: end() - begin()
        is size(), and the cells from begin() up to end() are exactly the
        elements. */
    function Begin(): nat
    {
      0
    }

    function End(): (e: nat)
      reads this, cells
      ensures e - Begin() == size
      ensures Valid() ==> e <= capacity && cells[Begin()..e] == Elements()
    {
      Begin() + size
    }

    /** `front()`: the first cell (the first element when there is one). */
    function Front(): (x: T)
      reads this, cells
      requires Valid() && capacity > 0
      ensures size > 0 ==> x == Elements()[0]
    {
      cells[Begin()]
    }

    /** `operator[]` (unchecked in C++: any index below the capacity). */
    function At(i: nat): (x: T)
      reads this, cells
      requires Valid() && i < capacity
      ensures i < size ==> x == Elements()[i]
    {
      cells[i]
    }

    /** `push_back`: writes at index size and increments size; a full
        vector is excluded (the C++ write is out of bounds). */
    method PushBack(x: T)
      requires Valid() && size < capacity
      modifies this`size, cells
      ensures Valid()
      ensures size == old(size) + 1
      ensures cells[..] == old(cells[..])[old(size) := x]
      ensures Elements() == old(Elements()) + [x]
    {
      cells[size] := x;
      size := size + 1;
    }

    /** `resize_to_reserved`: the size becomes the capacity; no cell changes. */
    method ResizeToReserved()
      requires Valid()
      modifies this`size
      ensures Valid() && size == capacity
      ensures Elements() == cells[..]
    {
      size := capacity;
    }

    /** `operator==`: equal sizes and equal elements over [begin(), end()). */
    method Equals(rhs: Vector<T>) returns (eq: bool)
      requires Valid() && rhs.Valid()
      ensures eq <==> Elements() == rhs.Elements()
    {
      if size != rhs.size {
        return false;
      }
      eq := Algo.Equal(cells[..], Begin(), End(), rhs.cells[..], rhs.Begin());
      assert cells[..][Begin()..End()] == Elements();
      assert rhs.cells[..][rhs.Begin()..rhs.Begin() + size] == rhs.Elements();
    }
  }

  /** The default `fixed_string<n>()`: an empty string whose n cells are
      all filled with '\0'. */
  method NewFixedString(n: nat) returns (s: Vector<char>)
    ensures fresh(s) && fresh(s.cells) && s.Valid()
    ensures s.capacity == n && s.size == 0
    ensures s.cells[..] == seq(n, _ => '\0')
  {
    s := new Vector<char>(n, '\0');
    Algo.Fill(s.cells, s.Begin(), n, '\0');
  }

  /** `fixed_string{ c... }` with its deduction guide (and the `_s`
      literal built on it): capacity one more than the number of
      characters, the characters pushed in order, and one '\0' cell left
      at the end. */
  method FixedStringOf(chars: seq<char>) returns (s: Vector<char>)
    ensures fresh(s) && fresh(s.cells) && s.Valid()
    ensures s.capacity == |chars| + 1
    ensures s.Elements() == chars && s.cells[|chars|] == '\0'
  {
    s := new Vector<char>(|chars| + 1, '\0');
    for i := 0 to |chars|
      invariant fresh(s.cells) && s.Valid() && s.capacity == |chars| + 1 && s.size == i
      invariant s.Elements() == chars[..i]
      invariant s.cells[|chars|] == '\0'
    {
      s.PushBack(chars[i]);
      assert chars[..i + 1] == chars[..i] + [chars[i]];
    }
  }
}
