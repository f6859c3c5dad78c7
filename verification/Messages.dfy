/** Pooled messages and the lists they rotate through. */
module Messages {
  import opened Bytes

  class Message {
    var fd: int
    var seqNo: nat
    /** The bytes of the buffer that are in use. */
    var data: seq<byte>

    constructor ()
      ensures fd == 0 && seqNo == 0 && data == []
    {
      fd, seqNo, data := 0, 0, [];
    }
  }

  class MessageList {
    var items: seq<Message>
    var size: nat

    predicate Valid()
      reads this
    {
      size == |items|
    }

    constructor ()
      ensures Valid() && items == []
    {
      items, size := [], 0;
    }

    method PushBack(m: Message)
      requires Valid()
      modifies this
      ensures Valid() && items == old(items) + [m]
    {
      items := items + [m];
      size := size + 1;
    }

    method PopFront() returns (m: Message?)
      requires Valid()
      modifies this
      ensures Valid()
      ensures old(items) == [] ==> m == null && items == []
      ensures old(items) != [] ==> m == old(items)[0] && items == old(items)[1..]
    {
      m := null;
      if items != [] {
        m := items[0];
        items := items[1..];
        size := size - 1;
      }
    }
  }
}
