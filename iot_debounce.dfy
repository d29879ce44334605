/**
 * The public interface of the debounce component: the active-level and
 * callback-type enumerations, the ESP-IDF error codes the API returns, and
 * the callback type `void (*)(void *)`, whose function and context pointers
 * are modelled as opaque identities.
 */
module IotDebounce {
  import opened Options

  /** The identity of a callback function (a non-null `debounce_cb`). */
  type CallbackFn = nat

  /** The identity of a non-null context pointer handed back to a callback. */
  type Context = nat

  /** `debounce_active_t`: which raw GPIO level counts as "pressed". */
  datatype ActiveLevel = ActiveLow | ActiveHigh {
    /** The enumerator's value, compared directly with the raw GPIO level. */
    function Code(): (v: int)
      ensures v == 0 || v == 1
      ensures v == 1 <==> this == ActiveHigh
    {
      match this
      case ActiveHigh => 1
      case ActiveLow => 0
    }
  }

  /** `debounce_cb_type_t`: selects one of the two callback slots. */
  datatype CbType = CbPush | CbRelease {
    function Code(): (v: int)
      ensures v == 0 || v == 1
      ensures v == 0 <==> this == CbPush
    {
      match this
      case CbPush => 0
      case CbRelease => 1
    }
  }

  /** The callback type a raw enumerator value selects; `None` for any other value. */
  function CbTypeFromCode(raw: int): (r: Option<CbType>)
    ensures r.Some? <==> (raw == 0 || raw == 1)
    ensures r.Some? ==> r.value.Code() == raw
  {
    if raw == 0 then Some(CbPush) else if raw == 1 then Some(CbRelease) else None
  }

  /** `esp_err_t` values the API returns. */
  datatype EspErr = EspOk | EspFail | EspErrInvalidArg {
    function Code(): (v: int)
      ensures v == 0 <==> this == EspOk
    {
      match this
      case EspOk => 0
      case EspFail => -1
      case EspErrInvalidArg => 0x102
    }
  }
}
