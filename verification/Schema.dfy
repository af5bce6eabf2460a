/** The movement payload and its validator. */
module Schema {
  import opened Wrappers
  import opened Uuids

  datatype MovementType = IN | OUT | TRANSFER

  /** The request body: which warehouse fields must be set depends on the type. */
  datatype MovementCreate = MovementCreate(
    product: Uuid,
    movementType: MovementType,
    quantity: int,
    source: Option<Uuid>,
    destination: Option<Uuid>)

  datatype SchemaError =
    | QuantityNotPositive
    | DestinationRequired
    | SourceNotAllowed
    | SourceRequired
    | DestinationNotAllowed
    | BothRequired
    | SameWarehouse

  /** A validated movement, with only the fields its type carries. */
  datatype MovementShape =
    | In(product: Uuid, destination: Uuid, quantity: int)
    | Out(product: Uuid, source: Uuid, quantity: int)
    | Transfer(product: Uuid, source: Uuid, destination: Uuid, quantity: int)

  type Movement = m: MovementShape |
    m.quantity > 0 && (m.Transfer? ==> m.source != m.destination)
    witness In(0, 0, 1)

  /** Field(gt=0) runs first, then the model validator, branch by branch. */
  function Validate(c: MovementCreate): Result<Movement, SchemaError> {
    if c.quantity <= 0 then Failure(QuantityNotPositive) else
    match c.movementType
    case IN =>
      if c.destination.None? then Failure(DestinationRequired)
      else if c.source.Some? then Failure(SourceNotAllowed)
      else Success(In(c.product, c.destination.value, c.quantity))
    case OUT =>
      if c.source.None? then Failure(SourceRequired)
      else if c.destination.Some? then Failure(DestinationNotAllowed)
      else Success(Out(c.product, c.source.value, c.quantity))
    case TRANSFER =>
      if c.source.None? || c.destination.None? then Failure(BothRequired)
      else if c.source.value == c.destination.value then Failure(SameWarehouse)
      else Success(Transfer(c.product, c.source.value, c.destination.value, c.quantity))
  }

  /** The columns stored in the movements table: IN has no source, OUT no destination. */
  function Columns(m: Movement): MovementCreate {
    match m
    case In(p, d, q) => MovementCreate(p, IN, q, None, Some(d))
    case Out(p, s, q) => MovementCreate(p, OUT, q, Some(s), None)
    case Transfer(p, s, d, q) => MovementCreate(p, TRANSFER, q, Some(s), Some(d))
  }

  /** The validator accepts exactly the payloads that are some movement's columns,
      and nothing is lost or invented on the way. */
  lemma ValidateExact(c: MovementCreate)
    ensures Validate(c).Success? <==> exists m: Movement :: c == Columns(m)
    ensures forall m: Movement :: Validate(c) == Success(m) <==> c == Columns(m)
  {
    if Validate(c).Success? {
      assert c == Columns(Validate(c).value);
    }
  }

  /** Which complaint a payload gets, and what an accepted one becomes, field by field. */
  lemma ValidateAnswers(c: MovementCreate)
    ensures var r := Validate(c);
      && (r == Failure(QuantityNotPositive) <==> c.quantity < 1)
      && (r == Failure(DestinationRequired) <==>
            c.quantity >= 1 && c.movementType == IN && c.destination == None)
      && (r == Failure(SourceNotAllowed) <==>
            c.quantity >= 1 && c.movementType == IN && c.destination != None && c.source != None)
      && (r == Failure(SourceRequired) <==>
            c.quantity >= 1 && c.movementType == OUT && c.source == None)
      && (r == Failure(DestinationNotAllowed) <==>
            c.quantity >= 1 && c.movementType == OUT && c.source != None && c.destination != None)
      && (r == Failure(BothRequired) <==>
            c.quantity >= 1 && c.movementType == TRANSFER && (c.source == None || c.destination == None))
      && (r == Failure(SameWarehouse) <==>
            c.quantity >= 1 && c.movementType == TRANSFER && c.source != None && c.source == c.destination)
      && (r.Success? ==>
            && r.value.product == c.product && r.value.quantity == c.quantity
            && (r.value.In? <==> c.movementType == IN) && (r.value.Out? <==> c.movementType == OUT)
            && (!r.value.In? ==> c.source == Some(r.value.source))
            && (!r.value.Out? ==> c.destination == Some(r.value.destination)))
  {
  }
}
