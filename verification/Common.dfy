/** Bytes, options and the few facts about sequences that the other modules share. */
module Common {
  type byte = b: int | 0 <= b < 256

  const U64 := 0x1_0000_0000_0000_0000

  datatype Option<+T> = None | Some(value: T) {
    function GetOr(default: T): T {
      if Some? then value else default
    }
  }

  function Min(a: int, b: int): int {
    if a <= b then a else b
  }

  lemma Assoc<T>(a: seq<T>, b: seq<T>, c: seq<T>)
    ensures (a + b) + c == a + (b + c)
  {
  }

  lemma TakeMore<T>(a: seq<T>, i: nat, j: nat)
    requires i <= j <= |a|
    ensures a[..i] + a[i..j] == a[..j]
  {
  }

  lemma TakeConcat<T>(a: seq<T>, b: seq<T>, k: nat)
    requires k <= |b|
    ensures (a + b)[..|a| + k] == a + b[..k]
  {
  }

  /** The bytes of a list of chunks, in order. */
  function Flatten(cs: seq<seq<byte>>): seq<byte> {
    if cs == [] then [] else cs[0] + Flatten(cs[1..])
  }

  lemma {:induction false} FlattenSnoc(cs: seq<seq<byte>>, c: seq<byte>)
    ensures Flatten(cs + [c]) == Flatten(cs) + c
  {
    if cs == [] {
      assert cs + [c] == [c];
      assert Flatten([c]) == c + Flatten([]);
    } else {
      assert (cs + [c])[1..] == cs[1..] + [c];
      FlattenSnoc(cs[1..], c);
    }
  }
}
