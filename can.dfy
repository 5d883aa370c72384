// The bus frame shared by every task: an 11-bit standard or 29-bit extended
// identifier and a payload of up to eight bytes (embassy_stm32::can::Frame).
module Can {
  import opened Bytes
  import opened Results

  const MAX_STANDARD_ID: int := 0x7FF
  const MAX_EXTENDED_ID: int := 0x1FFF_FFFF

  datatype Id = Standard(raw: int) | Extended(raw: int)

  predicate ValidId(id: Id) {
    match id
    case Standard(raw) => 0 <= raw <= MAX_STANDARD_ID
    case Extended(raw) => 0 <= raw <= MAX_EXTENDED_ID
  }

  datatype Frame = Frame(id: Id, data: seq<byte>)

  /** What `Frame::new_data` accepts: a valid identifier and at most eight bytes. */
  predicate ValidFrame(f: Frame) {
    ValidId(f.id) && |f.data| <= 8
  }

  /** `StandardId::new(raw)`: `None` above 0x7FF. */
  function NewStandardId(raw: int): (r: Option<Id>)
    requires raw >= 0
    ensures r.Some? <==> raw <= MAX_STANDARD_ID
    ensures r.Some? ==> r.value == Standard(raw) && ValidId(r.value)
  {
    if raw <= MAX_STANDARD_ID then Some(Standard(raw)) else None
  }
}
