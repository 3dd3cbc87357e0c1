/** What fails for reasons outside the program: reads, writes, requests, transactions. */
module Outages {

  class Outages {
    /** Which of the attempts fail, in the order in which they are made. */
    const fails: nat -> bool
    var attempts: nat

    constructor (fails: nat -> bool)
      ensures this.fails == fails && attempts == 0
    {
      this.fails, attempts := fails, 0;
    }

    method Attempt() returns (ok: bool)
      modifies this
      ensures attempts == old(attempts) + 1 && (ok <==> !fails(old(attempts)))
    {
      ok := !fails(attempts);
      attempts := attempts + 1;
    }

    /** None of the attempts made since has failed. */
    ghost predicate Calm(since: nat)
      reads this
    {
      since <= attempts && forall i :: since <= i < attempts ==> !fails(i)
    }
  }
}
