/** The insurance fund. */
module Insurance {

  /** What the fund pays towards a deficit. */
  function CoveredPart(balance: real, deficit: real): real {
    if deficit <= 0.0 then 0.0 else if balance >= deficit then deficit else balance
  }

  class Fund {
    var balance: real

    constructor (initial: real)
      ensures balance == initial
    {
      balance := initial;
    }

    /** Negative amounts are ignored. */
    method Contribute(amount: real)
      modifies this
      ensures balance == if amount < 0.0 then old(balance) else old(balance) + amount
    {
      if amount < 0.0 {
        return;
      }
      balance := balance + amount;
    }

    /** Pays what it can; what it cannot pay calls for deleveraging. */
    method Cover(deficit: real) returns (covered: real, needADL: bool)
      modifies this
      ensures covered == CoveredPart(old(balance), deficit) && balance == old(balance) - covered
      ensures needADL <==> deficit > 0.0 && covered < deficit
      ensures needADL ==> balance == 0.0
      ensures old(balance) >= 0.0 ==> 0.0 <= balance && covered >= 0.0
    {
      if deficit <= 0.0 {
        return 0.0, false;
      }
      if balance >= deficit {
        balance := balance - deficit;
        return deficit, false;
      }
      covered := balance;
      balance := 0.0;
      needADL := true;
    }
  }
}
