/**
 * The closed, possibly variable interval that fields validate values against.
 * For a variable range the minimum is minSmallest..minLargest and the maximum
 * maxSmallest..maxLargest; a value is valid when it lies between the smallest
 * minimum and the largest maximum.
 */
module ValueRange {
  import opened Results
  import Integer

  datatype ValueRange = ValueRange(minSmallest: int, minLargest: int, maxSmallest: int, maxLargest: int)
  {
    predicate IsValidValue(v: int)
    {
      minSmallest <= v <= maxLargest
    }

    /** Every value of the range fits a 32-bit int. */
    predicate IsIntValue()
    {
      Integer.IsInt32(minSmallest) && Integer.IsInt32(maxLargest)
    }

    /** The value itself when valid, an InvalidValue error naming the field otherwise. */
    function CheckValidValue(v: int, field: string): (r: Result<int>)
      ensures r.Ok? <==> IsValidValue(v)
      ensures r.Ok? ==> r.value == v
      ensures r.Err? ==> r.error == InvalidValue(field, v)
    {
      if IsValidValue(v) then Ok(v) else Err(InvalidValue(field, v))
    }

    /** As CheckValidValue, and also failing when the range does not fit 32 bits. */
    function CheckValidIntValue(v: int, field: string): (r: Result<int>)
      ensures r.Ok? <==> IsIntValue() && IsValidValue(v)
      ensures r.Ok? ==> r.value == v && Integer.IsInt32(v)
      ensures r.Err? ==> r.error == InvalidValue(field, v)
    {
      if IsIntValue() && IsValidValue(v) then Ok(v) else Err(InvalidValue(field, v))
    }
  }

  function Of(min: int, max: int): (r: ValueRange)
    ensures forall v :: r.IsValidValue(v) <==> min <= v <= max
  {
    ValueRange(min, min, max, max)
  }

  function OfVariable(min: int, maxSmallest: int, maxLargest: int): (r: ValueRange)
    ensures forall v :: r.IsValidValue(v) <==> min <= v <= maxLargest
  {
    ValueRange(min, min, maxSmallest, maxLargest)
  }
}
