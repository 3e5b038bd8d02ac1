/**
 * The growable array of example/dyn_array.c. The struct becomes a class
 * with the same four fields; the byte buffer becomes an array with one
 * slot per element, so element_size is kept but the byte offsets
 * size * element_size are not spelled out. Whether malloc succeeds is a
 * parameter of the operation that calls it.
 */
module DynArray {

  class DynArray<T(0)> {
    var capacity: int
    var size: int
    var elementSize: int
    var data: array?<T>

    /**
     * The struct as arr_create and arr_push leave it. data is null only
     * after a failed reallocation, which loses the old buffer.
     */
    ghost predicate Valid()
      reads this
    {
      && 0 <= size <= capacity
      && elementSize >= 1
      && (data != null ==> data.Length == capacity)
    }

    /** The elements pushed and not popped, oldest first. */
    ghost function Contents(): seq<T>
      reads this, data
      requires Valid() && data != null
    {
      data[..size]
    }

    constructor (initialElements: nat, elementSize: int)
      requires elementSize >= 1
      ensures Valid() && data != null && fresh(data)
      ensures capacity == initialElements && size == 0 && this.elementSize == elementSize
      ensures Contents() == []
    {
      capacity := initialElements;
      size := 0;
      this.elementSize := elementSize;
      data := new T[initialElements];
    }

    /**
     * arr_create: NULL when either allocation fails, otherwise an empty
     * array whose capacity is the requested number of elements. A negative
     * count makes the byte count negative, which malloc, taking it as an
     * unsigned size far beyond memory, cannot satisfy.
     */
    static method Create(initialElements: int, elementSize: int, structOk: bool, dataOk: bool)
        returns (a: DynArray?<T>)
      requires elementSize >= 1
      ensures !(structOk && dataOk && initialElements >= 0) ==> a == null
      ensures structOk && dataOk && initialElements >= 0 ==>
        && a != null && fresh(a) && a.Valid() && a.data != null && fresh(a.data)
        && a.capacity == initialElements && a.size == 0 && a.elementSize == elementSize
        && a.Contents() == []
    {
      if !structOk {
        return null;
      }
      if !dataOk || initialElements < 0 {
        return null;
      }
      a := new DynArray(initialElements, elementSize);
    }

    /**
     * arr_push. When the buffer is full it is replaced by one twice as
     * large holding the same elements; then the element goes in at index
     * size, size grows by one and the old size is returned. If that
     * reallocation fails, -1 is returned, size and capacity are as before
     * and the buffer is lost.
     */
    method Push(x: T, allocOk: bool) returns (index: int)
      requires Valid() && data != null && capacity >= 1
      modifies this, data
      ensures Valid() && elementSize == old(elementSize)
      ensures var full := old(capacity) < old(size) + 1;
        if full && !allocOk then
          index == -1 && data == null && size == old(size) && capacity == old(capacity)
        else
          && index == old(size)
          && data != null
          && size == old(size) + 1
          && capacity == (if full then 2 * old(capacity) else old(capacity))
          && (if full then fresh(data) else data == old(data))
          && Contents() == old(Contents()) + [x]
    {
      if capacity < size + 1 {
        var temp := data;
        if !allocOk {
          data := null;
          return -1;
        }
        var grown := new T[size * 2];
        var i := 0;
        while i < size
          modifies grown
          invariant 0 <= i <= size
          invariant grown[..i] == temp[..i]
        {
          grown[i] := temp[i];
          i := i + 1;
        }
        data := grown;
        capacity := capacity * 2;
      }
      data[size] := x;
      size := size + 1;
      index := size - 1;
    }

    /**
     * arr_pop: size shrinks by one and the element at the new size, the
     * one pushed last, is returned. The source does not check for an empty
     * array.
     */
    method Pop() returns (x: T)
      requires Valid() && data != null && size > 0
      modifies this
      ensures Valid() && data == old(data) && capacity == old(capacity)
      ensures elementSize == old(elementSize)
      ensures size == old(size) - 1
      ensures x == old(Contents())[old(size) - 1]
      ensures Contents() == old(Contents())[..old(size) - 1]
    {
      size := size - 1;
      x := data[size];
    }
  }

  /**
   * Push then pop is last-in first-out: the element just pushed comes back
   * and the array holds what it held before.
   */
  method PushThenPop<T(0)>(a: DynArray<T>, x: T) returns (y: T)
    requires a.Valid() && a.data != null && a.capacity >= 1
    modifies a, a.data
    ensures a.Valid() && a.data != null
    ensures old(a.size) < old(a.capacity) ==> a.data == old(a.data)
    ensures y == x && a.size == old(a.size) && a.Contents() == old(a.Contents())
  {
    var index := a.Push(x, true);
    y := a.Pop();
  }

  /**
   * The session of example/dyn_arr_test.c with every allocation
   * succeeding: capacity 1, pushes of 10, 20 and 30 (the array grows
   * twice), then two pops, which return 30 and then 20.
   */
  method PushThreePopTwo() returns (first: int, second: int)
    ensures first == 30 && second == 20
  {
    var arr := DynArray.Create(1, 4, true, true);
    var i := arr.Push(10, true);
    i := arr.Push(20, true);
    i := arr.Push(30, true);
    assert arr.Contents() == [10, 20, 30];
    first := arr.Pop();
    second := arr.Pop();
  }
}
