/** The persisted entities the core works on. */
module Entity {
  import opened Wrappers

  /** A uuid.UUID; 0 plays the part of uuid.Nil. */
  type Id = nat

  const NilId: Id := 0

  /** The `order_status` SQL enum. */
  datatype OrderStatus = New | Processing | Invalid | Processed {
    /** The enum label stored in the database. */
    function Label(): string
    {
      match this
      case New => "NEW"
      case Processing => "PROCESSING"
      case Invalid => "INVALID"
      case Processed => "PROCESSED"
    }

    /** Terminal statuses are never looked up again by the sweep. */
    predicate IsTerminal()
    {
      this == Invalid || this == Processed
    }
  }

  /** entity.Order without its creation timestamp; `accrual` is the nullable
      `*float64`. */
  datatype Order = Order(id: Id, userId: Id, number: string, status: OrderStatus, accrual: Option<real>)

  /** entity.Withdraw without its timestamp. */
  datatype Withdrawal = Withdrawal(id: Id, userId: Id, orderNumber: string, value: real)
}
