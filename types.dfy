/** The records of src/types/subscription.ts. Dates are instants in
    milliseconds (see module Dates); optional properties are `Option`s. */
module Types {
  import opened Wrappers

  /** The three lifecycle states of a subscription. */
  datatype Status = Active | Expired | ExpiringSoon

  /** A stored subscription. `expirationDate` and `status` are derived by
      the store on every write; callers never supply them. */
  datatype Subscription = Subscription(
    id: string,
    clientName: string,
    planType: string,
    duration: string,
    customDuration: Option<int>,
    customDate: Option<int>,
    startDate: int,
    expirationDate: int,
    notes: Option<string>,
    cost: Option<real>,
    status: Status)

  /** An optional property of a JavaScript object literal. The difference
      between a missing key and a key holding `undefined` shows when the
      object is spread over another one: `{...sub, ...form}` keeps `sub`'s
      value only when `form` has no such key. */
  datatype Prop<+T> = Missing | Undefined | Defined(value: T) {

    /** What reading the property gives. */
    function Value(): Option<T> {
      if Defined? then Some(value) else None
    }

    /** The property of `{...base, ...this}`, given the value in `base`. */
    function Over(base: Option<T>): (r: Option<T>)
      ensures Missing? ==> r == base
      ensures Undefined? ==> r.None?
      ensures Defined? ==> r == Some(value)
    {
      if Missing? then base else Value()
    }
  }

  /** What a form submits: a subscription without `id`, `expirationDate`
      and `status`. */
  datatype SubscriptionFormData = SubscriptionFormData(
    clientName: string,
    planType: string,
    duration: string,
    startDate: int,
    customDuration: Prop<int>,
    customDate: Prop<int>,
    notes: Prop<string>,
    cost: Prop<real>)

  /** An entry of the duration vocabulary: the source's `{label, value, days}`
      (`label` is a reserved word here, so the label is `name`). `value` is
      the key stored in a subscription's `duration`; `days` is `null` for the
      entries resolved specially ('lifetime', 'custom'). */
  datatype DurationOption = DurationOption(name: string, value: string, days: Option<int>)
}
