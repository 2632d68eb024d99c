/** The growing array of src/common/data_structures/arraylist.c. */
module ArrayList {
  import opened Options

  const INITIAL_CAPACITY: nat := 3

  class ArrayList<T(0)> {
    var size: nat
    var capacity: nat
    var data: array<T>
    /** Index of the slot after the last item. */
    var top: nat

    ghost predicate Valid()
      reads this
    {
      capacity == data.Length && size <= capacity && top == size
    }

    ghost function Contents(): seq<T>
      reads this, data
      requires Valid()
    {
      data[..size]
    }

    constructor WithCapacity(initialCapacity: nat)
      ensures Valid() && fresh(data) && capacity == initialCapacity && Contents() == []
    {
      capacity, size, top := initialCapacity, 0, 0;
      data := new T[initialCapacity];
    }

    constructor ()
      ensures Valid() && fresh(data) && capacity == INITIAL_CAPACITY && Contents() == []
    {
      capacity, size, top := INITIAL_CAPACITY, 0, 0;
      data := new T[INITIAL_CAPACITY];
    }

    /** The capacity doubles and no item changes. Room is made exactly when there was some
        capacity to double. */
    method ExtendCapacity()
      requires Valid()
      modifies this
      ensures Valid() && fresh(data) && Contents() == old(Contents()) && size == old(size)
      ensures capacity == 2 * old(capacity)
      ensures old(size) == old(capacity) ==> (size < capacity <==> old(capacity) > 0)
    {
      var newData := new T[capacity * 2];
      var i := 0;
      while i < size
        modifies newData
        invariant 0 <= i <= size
        invariant newData[..i] == data[..i]
      {
        newData[i] := data[i];
        i := i + 1;
      }
      data := newData;
      capacity := capacity * 2;
      top := size;
    }

    /** The item is appended. In a list that was made without capacity the copy would go past the
        buffer; nothing is appended then. */
    method Push(item: T) returns (index: Option<nat>)
      requires Valid()
      modifies this, data
      ensures Valid() && (capacity > 0 <==> old(capacity) > 0) && (data == old(data) || fresh(data))
      ensures index == if old(capacity) > 0 then Some(|old(Contents())|) else None
      ensures Contents() == if old(capacity) > 0 then old(Contents()) + [item] else old(Contents())
    {
      if size >= capacity {
        ExtendCapacity();
      }
      if size >= capacity {
        return None;
      }
      data[top] := item;
      top := top + 1;
      size := size + 1;
      index := Some(size - 1);
    }

    method Set(item: T, index: nat)
      requires Valid() && index < size
      modifies this, data
      ensures Valid() && (capacity > 0 <==> old(capacity) > 0) && (data == old(data) || fresh(data))
      ensures index < |old(Contents())| && Contents() == old(Contents())[index := item]
    {
      if size >= capacity {
        ExtendCapacity();
      }
      data[index] := item;
    }

    method Pop() returns (item: T)
      requires Valid() && size > 0
      modifies this
      ensures Valid() && data == old(data) && capacity == old(capacity)
      ensures old(Contents()) == Contents() + [item]
    {
      size := size - 1;
      top := top - 1;
      item := data[top];
    }

    function Get(index: nat): (item: T)
      reads this, data
      requires Valid() && index < size
      ensures item == Contents()[index]
    {
      data[index]
    }
  }
}
