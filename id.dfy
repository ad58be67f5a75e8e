/** The unique id generator: a counter that starts at 0 and is incremented
    before each id is handed out. The counter is a JavaScript number (a
    double), so it counts exactly only up to 2^53. */
module Id {

  /** 2^53, one past `Number.MAX_SAFE_INTEGER`: the last integer the counter
      reaches, since 2^53 + 1 is not a double and rounds back to 2^53. */
  const SafeLimit: int := 0x20_0000_0000_0000

  /** `++id` on the counter: the double nearest to `id + 1`. For a counter
      in `0..2^53` that is `id + 1` below the limit and the limit itself at it. */
  function PlusOne(id: int): (r: int)
    requires 0 <= id <= SafeLimit
    ensures 0 < r <= SafeLimit && id <= r
    ensures r == id <==> id == SafeLimit
  {
    if id < SafeLimit then id + 1 else id
  }

  /** The counter after `n` calls: `n`, until it sticks at 2^53. */
  function IdAfter(n: nat): int {
    if n < SafeLimit then n else SafeLimit
  }

  /** The ids handed out by the first `n` calls, in order. */
  function IdsIssued(n: nat): seq<int> {
    if n == 0 then [] else IdsIssued(n - 1) + [IdAfter(n)]
  }

  /** The `i`-th call hands out `i + 1` (so the first id is 1, not 0), up to
      the call that reaches 2^53; every later call hands out 2^53 again. */
  lemma {:induction false} IdsIssuedAt(n: nat, i: nat)
    requires i < n
    ensures |IdsIssued(n)| == n
    ensures IdsIssued(n)[i] == if i < SafeLimit then i + 1 else SafeLimit
  {
    if i < n - 1 {
      IdsIssuedAt(n - 1, i);
    } else {
      IdsIssuedLength(n - 1);
    }
  }

  /** `n` calls hand out `n` ids. */
  lemma {:induction false} IdsIssuedLength(n: nat)
    ensures |IdsIssued(n)| == n
  {
    if n > 0 {
      IdsIssuedLength(n - 1);
    }
  }

  /** The ids handed out are positive and never decrease; up to the call
      that reaches 2^53 they strictly increase, so none of those repeats. */
  lemma IdsIssuedIncreasing(n: nat)
    ensures forall i :: 0 <= i < |IdsIssued(n)| ==> IdsIssued(n)[i] > 0
    ensures forall i, j :: 0 <= i < j < |IdsIssued(n)| ==> IdsIssued(n)[i] <= IdsIssued(n)[j]
    ensures forall i, j :: 0 <= i < j < |IdsIssued(n)| && j < SafeLimit ==> IdsIssued(n)[i] < IdsIssued(n)[j]
  {
    IdsIssuedLength(n);
    forall i | 0 <= i < n ensures IdsIssued(n)[i] == if i < SafeLimit then i + 1 else SafeLimit {
      IdsIssuedAt(n, i);
    }
  }

  /** Once the counter has reached 2^53 the next call repeats the last id. */
  lemma IdRepeatsAtLimit()
    ensures |IdsIssued(SafeLimit + 1)| == SafeLimit + 1
    ensures IdsIssued(SafeLimit + 1)[SafeLimit - 1] == IdsIssued(SafeLimit + 1)[SafeLimit] == SafeLimit
  {
    IdsIssuedAt(SafeLimit + 1, SafeLimit - 1);
    IdsIssuedAt(SafeLimit + 1, SafeLimit);
  }

  /** `generatorId`: the generator's local `id`, advanced by one iteration of
      `while (true) yield ++id` per `next()`. `issued` records the ids handed
      out so far. */
  class IdGenerator {
    var id: int
    ghost var issued: seq<int>

    ghost predicate Valid()
      reads this
    {
      id == IdAfter(|issued|) && issued == IdsIssued(|issued|)
    }

    /** Creating the generator: `let id = 0`. */
    constructor ()
      ensures Valid() && id == 0 && issued == []
    {
      id := 0;
      issued := [];
    }

    /** `getId()`, i.e. `generatorId.next().value`: increments the counter and
      hands out the new value; the loop never ends, so every call yields one. */
    method Next() returns (v: int)
      requires Valid()
      modifies this
      ensures Valid()
      ensures v == PlusOne(old(id)) && id == v
      ensures old(id) < SafeLimit ==> v == old(id) + 1
      ensures issued == old(issued) + [v]
      ensures v > 0 && forall u :: u in old(issued) ==> u <= v
      ensures old(id) < SafeLimit ==> forall u :: u in old(issued) ==> u < v
    {
      ghost var n := |issued|;
      id := PlusOne(id);
      v := id;
      issued := issued + [v];
      assert issued == IdsIssued(n + 1);
      forall u | u in old(issued) ensures u <= old(id) {
        var i :| 0 <= i < n && old(issued)[i] == u;
        IdsIssuedAt(n, i);
      }
    }
  }

  /** The first three calls yield 1, 2 and 3. */
  method FirstIds() returns (a: int, b: int, c: int)
    ensures a == 1 && b == 2 && c == 3
  {
    var generator := new IdGenerator();
    a := generator.Next();
    b := generator.Next();
    c := generator.Next();
  }
}
