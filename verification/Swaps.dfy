/**
  Swap-outs: the highest invoice amount accepted for what is to arrive on chain, and the
  check of the provider's invoice when the swap is created and again before it is paid.
 */
module Swaps {
  import opened Wrappers

  const ALBY_SERVICE_FEE_PERCENTAGE: real := 1.0
  const INVOICE_TOLERANCE_SAT: nat := 10

  // What a decoded invoice says.
  datatype Invoice = Invoice(paymentHash: string, msatoshi: int)

  datatype InvoiceError = Undecodable | WrongHash | NoAmount | TooLarge

  // What is asked of the provider, with the fees it quotes.
  datatype Quote = Quote(receiveSat: nat, servicePercentage: real, lockupSat: nat, claimSat: nat)

  // A stored swap.
  datatype Swap = Swap(paymentHash: string, invoice: string, sendAmountSat: nat)

  function OnchainSat(quote: Quote): nat {
    quote.receiveSat + quote.claimSat + quote.lockupSat
  }

  function TotalPercentage(quote: Quote): real {
    quote.servicePercentage + ALBY_SERVICE_FEE_PERCENTAGE
  }

  // What is left of a hundred when the percentages are taken off.
  function Rest(quote: Quote): real {
    100.0 - TotalPercentage(quote)
  }

  function Ceiling(x: real): (n: int)
    ensures n as real - 1.0 < x <= n as real
  {
    -((-x).Floor)
  }

  function CalculateMaxSwapOutSendAmountSat(quote: Quote): (limit: nat)
  {
    if TotalPercentage(quote) >= 100.0 then 0
    else
      LimitIsCeiling(OnchainSat(quote), Rest(quote));
      Ceiling(OnchainSat(quote) as real / (1.0 - TotalPercentage(quote) / 100.0)) + INVOICE_TOLERANCE_SAT
  }

  // Multiplying by a positive number keeps an order.
  lemma {:induction false} ScaleKeepsOrder(a: real, b: real, c: real)
    requires c > 0.0
    ensures a <= b ==> a * c <= b * c
    ensures a < b ==> a * c < b * c
  {
    if a < b {
      assert (b - a) * c > 0.0;
    }
  }

  lemma {:induction false} LimitIsCeiling(onchain: nat, rest: real)
    requires rest > 0.0
    ensures 1.0 - (100.0 - rest) / 100.0 == rest / 100.0
    ensures Ceiling(onchain as real / (rest / 100.0)) >= 0
  {
    DivisionScales(onchain as real, rest);
  }

  lemma {:induction false} DivisionScales(onchain: real, rest: real)
    requires rest > 0.0 && onchain >= 0.0
    ensures onchain / (rest / 100.0) >= 0.0
    ensures onchain / (rest / 100.0) * rest == 100.0 * onchain
  {
    var part := rest / 100.0;
    var y := onchain / part;
    assert y * part == onchain;
    assert rest == part * 100.0;
    assert y * (part * 100.0) == y * part * 100.0;
    if y < 0.0 {
      ScaleKeepsOrder(y, 0.0, part);
    }
  }

  // `least` is what `y` rounds up to, and `y` is exactly enough.
  lemma {:induction false} RoundedUpIsLeast(y: real, least: int, x: int, rest: real, enough: real)
    requires rest > 0.0 && y * rest == enough && least as real - 1.0 < y <= least as real
    ensures x as real * rest >= enough <==> x >= least
  {
    if x >= least {
      ScaleKeepsOrder(y, x as real, rest);
    } else {
      assert x as real <= least as real - 1.0;
      ScaleKeepsOrder(x as real, y, rest);
    }
  }

  /**
    The limit less the tolerance is the least amount that covers the on-chain amount once the percentages are taken
    off: one per cent and the provider's.
   */
  lemma {:induction false} LimitIsLeastPlusTolerance(quote: Quote, x: int)
    requires quote.servicePercentage < 99.0
    ensures x as real * (99.0 - quote.servicePercentage) >= 100.0 * (quote.receiveSat + quote.claimSat + quote.lockupSat) as real
            <==> x >= CalculateMaxSwapOutSendAmountSat(quote) - 10
  {
    var onchain, rest := OnchainSat(quote) as real, Rest(quote);
    LimitIsCeiling(OnchainSat(quote), rest);
    DivisionScales(onchain, rest);
    var y := onchain / (rest / 100.0);
    RoundedUpIsLeast(y, Ceiling(y), x, rest, 100.0 * onchain);
  }

  /** If the percentages leave nothing, no amount of a satoshi or more is accepted. */
  lemma {:induction false} NothingLeftNothingAccepted(quote: Quote, decoded: Option<Invoice>, hash: string)
    requires quote.servicePercentage >= 99.0
    ensures CalculateMaxSwapOutSendAmountSat(quote) == 0
    ensures decoded.Some? && decoded.value.msatoshi >= 1000 ==>
              VerifySwapOutInvoice(decoded, hash, CalculateMaxSwapOutSendAmountSat(quote)).Err?
  {
  }

  // ---------------------------------------------------------------- checking an invoice

  function VerifySwapOutInvoice(decoded: Option<Invoice>, expectedHash: string,
                                maxSendAmountSat: nat): Result<nat, InvoiceError> {
    if decoded.None? then Err(Undecodable)
    else if decoded.value.paymentHash != expectedHash then Err(WrongHash)
    else if decoded.value.msatoshi <= 0 then Err(NoAmount)
    else
      var sendAmountSat := decoded.value.msatoshi / 1000;
      if sendAmountSat > maxSendAmountSat then Err(TooLarge) else Ok(sendAmountSat)
  }

  /** Each refusal has its reason, and what is accepted is the amount in whole satoshis. */
  lemma {:induction false} VerdictsHaveReasons(decoded: Option<Invoice>, hash: string, limit: nat)
    ensures var verdict := VerifySwapOutInvoice(decoded, hash, limit);
            && (verdict == Err(Undecodable) <==> decoded == None)
            && (decoded.Some? ==>
                  var Invoice(itsHash, msat) := decoded.value;
                  && (verdict == Err(WrongHash) <==> itsHash != hash)
                  && (verdict == Err(NoAmount) <==> itsHash == hash && msat <= 0)
                  && (verdict == Err(TooLarge) <==> itsHash == hash && msat >= 1000 * limit + 1000)
                  && (verdict.Ok? ==> 1000 * verdict.value <= msat < 1000 * verdict.value + 1000))
  {
    if decoded.Some? {
      assert decoded.value.msatoshi / 1000 > limit <==> decoded.value.msatoshi >= 1000 * limit + 1000;
    }
  }

  // The swap stored for the provider's invoice, if that is accepted.
  function CreatedSwap(decode: string -> Option<Invoice>, invoice: string, hash: string,
                       quote: Quote): Result<Swap, InvoiceError> {
    match VerifySwapOutInvoice(decode(invoice), hash, CalculateMaxSwapOutSendAmountSat(quote))
    case Err(e) => Err(e)
    case Ok(sendAmountSat) => Ok(Swap(hash, invoice, sendAmountSat))
  }

  // The check before a stored swap's invoice is paid.
  predicate PaymentAllowed(decode: string -> Option<Invoice>, swap: Swap) {
    VerifySwapOutInvoice(decode(swap.invoice), swap.paymentHash, swap.sendAmountSat).Ok?
  }

  /**
    Whatever invoice is stored by then, the recheck admits exactly those of the swap's hash with a positive amount of
    no more whole satoshis.
   */
  lemma {:induction false} RecheckAdmitsIff(decode: string -> Option<Invoice>, swap: Swap)
    ensures PaymentAllowed(decode, swap) <==>
            exists msat: int :: decode(swap.invoice) == Some(Invoice(swap.paymentHash, msat)) && 0 < msat < 1000 * (swap.sendAmountSat + 1)
  {
    match decode(swap.invoice)
    case None =>
    case Some(Invoice(hash, msat)) =>
      assert decode(swap.invoice) == Some(Invoice(hash, msat));
      assert msat / 1000 > swap.sendAmountSat <==> msat >= 1000 * (swap.sendAmountSat + 1);
  }

  /**
    An invoice accepted when a swap was created is accepted again before it is paid. It, or whatever other invoice
    the recheck admits in its place, costs, in hundredths of what is left after the percentages, less than the on-chain
    amount and the tolerance, the rounding and the fraction of a satoshi that is not counted; with percentages of a
    hundred or more nothing but a fraction of a satoshi is paid.
   */
  lemma {:induction false} WhatIsPaidIsBounded(decode: string -> Option<Invoice>, invoice: string, hash: string,
                                               quote: Quote, other: string)
    requires CreatedSwap(decode, invoice, hash, quote).Ok?
    ensures var swap := CreatedSwap(decode, invoice, hash, quote).value;
            && PaymentAllowed(decode, swap)
            && (PaymentAllowed(decode, swap.(invoice := other)) ==>
                 && decode(other).Some?
                 && var msat := decode(other).value.msatoshi;
                    var left := 99.0 - quote.servicePercentage;
                    if left > 0.0
                    then msat as real * left < 1000.0 * (100.0 * (quote.receiveSat + quote.claimSat + quote.lockupSat) as real + 12.0 * left)
                    else msat < 1000)
  {
    var swap := CreatedSwap(decode, invoice, hash, quote).value;
    if PaymentAllowed(decode, swap.(invoice := other)) {
      RecheckAdmitsIff(decode, swap.(invoice := other));
      var msat := decode(other).value.msatoshi;
      assert msat < 1000 * (swap.sendAmountSat + 1);
      if TotalPercentage(quote) < 100.0 {
        CreatedSwapIsBounded(decode, invoice, hash, quote);
        PaidBound(msat as real, swap.sendAmountSat as real, Rest(quote), 100.0 * OnchainSat(quote) as real);
      } else {
        CreatedSwapIsBounded(decode, invoice, hash, quote);
      }
    }
  }

  lemma {:induction false} PaidBound(msat: real, s: real, rest: real, total: real)
    requires rest > 0.0 && msat < 1000.0 * (s + 1.0) && s * rest < total + 11.0 * rest
    ensures msat * rest < 1000.0 * (total + 12.0 * rest)
  {
    ScaleKeepsOrder(msat, 1000.0 * (s + 1.0), rest);
    assert (1000.0 * (s + 1.0)) * rest == 1000.0 * (s * rest) + 1000.0 * rest;
  }

  /**
    Any swap created pays, in hundredths of what is left after the percentages, less than the
    on-chain amount and eleven satoshis of tolerance and rounding; with percentages of a hundred
    or more nothing but a fraction of a satoshi is accepted.
   */
  lemma {:induction false} CreatedSwapIsBounded(decode: string -> Option<Invoice>, invoice: string, hash: string,
                                                quote: Quote)
    requires CreatedSwap(decode, invoice, hash, quote).Ok?
    ensures var s := CreatedSwap(decode, invoice, hash, quote).value.sendAmountSat;
            var left := 99.0 - quote.servicePercentage;
            if left > 0.0
            then s as real * left < 100.0 * (quote.receiveSat + quote.claimSat + quote.lockupSat) as real + 11.0 * left
            else s == 0
  {
    var s: int := CreatedSwap(decode, invoice, hash, quote).value.sendAmountSat;
    if TotalPercentage(quote) < 100.0 {
      // Eleven satoshis less does not cover.
      LimitIsLeastPlusTolerance(quote, s - 11);
      assert (s - 11) as real * Rest(quote) == s as real * Rest(quote) - 11.0 * Rest(quote);
    }
  }

  /** Any honest price is accepted: at most ten satoshis above an amount of which one less does not cover. */
  lemma {:induction false} HonestInvoiceIsAccepted(
    decode: string -> Option<Invoice>, invoice: string, hash: string, quote: Quote, least: nat, msat: int, s: nat)
    requires quote.servicePercentage < 99.0
    requires (least - 1) as real * (99.0 - quote.servicePercentage) < 100.0 * (quote.receiveSat + quote.claimSat + quote.lockupSat) as real
    requires s <= least + 10 && 0 < msat && 1000 * s <= msat < 1000 * s + 1000
    requires decode(invoice) == Some(Invoice(hash, msat))
    ensures CreatedSwap(decode, invoice, hash, quote) == Ok(Swap(hash, invoice, s))
  {
    LimitIsLeastPlusTolerance(quote, least - 1);
    assert msat / 1000 == s;
  }
}
