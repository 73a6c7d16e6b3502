/** What several components share. */
module Common {

  datatype Option<T> = None | Some(value: T)

  type Byte = x: int | 0 <= x < 256

  predicate PowerOfTwo(n: nat) {
    n == 1 || (n > 1 && n % 2 == 0 && PowerOfTwo(n / 2))
  }
}

/** Lists of sleeping threads from which one registration is withdrawn. */
module WaiterList {

  /** The list without every registration of one waiter. */
  function Kept(waiters: seq<nat>, gone: nat): seq<nat> {
    if waiters == [] then []
    else (if waiters[0] == gone then [] else [waiters[0]]) + Kept(waiters[1..], gone)
  }

  lemma {:induction false} KeptStep(waiters: seq<nat>, gone: nat, index: nat)
    requires index < |waiters|
    ensures Kept(waiters[..index + 1], gone) ==
      Kept(waiters[..index], gone) + (if waiters[index] == gone then [] else [waiters[index]])
  {
    if index == 0 {
      assert waiters[..1] == [waiters[0]];
    } else {
      KeptStep(waiters[1..], gone, index - 1);
      assert waiters[..index + 1][1..] == waiters[1..][..index];
      assert waiters[..index][1..] == waiters[1..][..index - 1];
    }
  }

  lemma {:induction false} KeptMembers(waiters: seq<nat>, gone: nat, waiter: nat)
    ensures waiter in Kept(waiters, gone) <==> waiter in waiters && waiter != gone
  {
    if waiters != [] {
      KeptMembers(waiters[1..], gone, waiter);
      assert waiter in waiters <==> waiter == waiters[0] || waiter in waiters[1..];
    }
  }
}
