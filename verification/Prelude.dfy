/** Result and option types, and the errors the modelled handlers can return. */
module Prelude {

  datatype Option<+T> = None | Some(value: T)

  /** The error values of the bank, swap and auction code. A Go panic inside a message
      handler is recovered by the transaction runner like an error, so it is one here. */
  datatype Error =
      // bank
    | InsufficientFunds
    | BlockedAddress
    | NegativeCoin
    | NoPermission
      // x/bep3/types/errors.go
    | SwapAlreadyExists
    | RecipientIsModule
    | NotExactlyOneCoin
    | AssetNotSupported
    | AssetNotActive
    | InvalidAmount
    | InvalidTimestamp
    | InvalidSwapAccount
    | InvalidHeightSpan
    | InsufficientAmount
    | SwapNotFound
    | SwapNotClaimable
    | SwapNotRefundable
    | InvalidClaimSecret
    | ExceedsSupplyLimit
    | ExceedsTimeBasedSupplyLimit
    | ExceedsAvailableSupply
    | InvalidCurrentSupply
    | InvalidIncomingSupply
    | InvalidOutgoingSupply
      // x/auction/types/errors.go
    | InvalidInitialAuctionID
    | AuctionNotFound
    | AuctionHasExpired
    | AuctionHasNotExpired
    | InvalidBidDenom
    | InvalidLotDenom
    | BidTooSmall
    | BidTooLarge
    | LotTooSmall
    | LotTooLarge
    | InvalidLotReturns
    | WrongPhase
      // genesis
    | InvalidGenesis

  datatype Result<+T> = Ok(value: T) | Err(error: Error) {
    predicate IsFailure() {
      Err?
    }

    function PropagateFailure<U>(): Result<U>
      requires Err?
    {
      Err(error)
    }

    function Extract(): T
      requires Ok?
    {
      value
    }
  }

  function Min(a: int, b: int): (r: int)
    ensures r <= a && r <= b && (r == a || r == b)
  {
    if a < b then a else b
  }

  function Max(a: int, b: int): (r: int)
    ensures r >= a && r >= b && (r == a || r == b)
  {
    if a < b then b else a
  }

  function Abs(a: int): (r: int)
    ensures r >= 0 && (r == a || r == -a)
  {
    if a < 0 then -a else a
  }

  /** White space in the sense of unicode.IsSpace. */
  predicate IsSpace(c: char) {
    || '\t' <= c <= '\r' || c == ' ' || c == '\U{85}' || c == '\U{A0}' || c == '\U{1680}'
    || '\U{2000}' <= c <= '\U{200A}'
    || c == '\U{2028}' || c == '\U{2029}' || c == '\U{202F}' || c == '\U{205F}' || c == '\U{3000}'
  }

  /** Nothing is left after strings.TrimSpace. */
  predicate Blank(s: string) {
    forall c <- s :: IsSpace(c)
  }
}
