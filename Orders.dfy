/**
 * Laundry orders (rows of the `customers` table) and the pricing rule of the
 * order form: a fixed rate per unit for each of three services, times the
 * quantity.
 */
module Orders {
  import opened Wrappers

  /** The services the order form offers. */
  datatype Service = WashAndFold | IroningAndPressing | DryCleaning

  /** The statuses the status selects offer. */
  datatype Status = Pending | Completed

  /**
   * A row of the `customers` table. Text columns hold "" when empty or null:
   * the pages test them for truthiness, compare them with non-empty literals or
   * copy and display them, and each of those treats null and "" alike.
   * `quantity`, `status` and `total` are None when the column is null.
   */
  datatype Order = Order(
    name: string,
    email: string,
    serviceType: string,
    quantity: Option<real>,
    pickupDate: string,
    pickupTime: string,
    status: Option<Status>,
    total: Option<real>)

  /** The option value under which the form's select submits a service. */
  function Label(s: Service): string {
    match s
    case WashAndFold => "Wash & Fold"
    case IroningAndPressing => "Ironing & Pressing"
    case DryCleaning => "Dry Cleaning"
  }

  /** The advertised price per unit (per kilogram or per piece). */
  function Rate(s: Service): real {
    match s
    case WashAndFold => 50.0
    case IroningAndPressing => 30.0
    case DryCleaning => 150.0
  }

  /** The service a stored `service_type` names, if it names one. */
  function ParseService(text: string): (r: Option<Service>)
    ensures r.Some? ==> Label(r.value) == text
    ensures forall s :: Label(s) == text ==> r == Some(s)
  {
    if text == "Wash & Fold" then Some(WashAndFold)
    else if text == "Ironing & Pressing" then Some(IroningAndPressing)
    else if text == "Dry Cleaning" then Some(DryCleaning)
    else None
  }

  /**
   * `calculateTotal(serviceType, qty)`. An empty quantity field is None; a
   * non-empty one holds the number it parses to.
   */
  function CalculateTotal(serviceType: string, qty: Option<real>): (r: real)
    ensures ParseService(serviceType).Some? && qty.Some? ==>
              r == qty.value * Rate(ParseService(serviceType).value)
    ensures ParseService(serviceType).None? || qty.None? ==> r == 0.0
  {
    if serviceType == "" || qty.None? then 0.0
    else if serviceType == "Wash & Fold" then qty.value * 50.0
    else if serviceType == "Ironing & Pressing" then qty.value * 30.0
    else if serviceType == "Dry Cleaning" then qty.value * 150.0
    else 0.0
  }

  /** The pricing rule holds of a row: its total is what its service and quantity cost. */
  predicate Priced(o: Order) {
    o.total == Some(CalculateTotal(o.serviceType, o.quantity))
  }

  /** A known service costs its advertised rate per unit. */
  lemma PriceFollowsRateTable(s: Service, q: real)
    ensures CalculateTotal(Label(s), Some(q)) == q * Rate(s)
  {
  }

  /** A service string other than the three labels costs nothing, whatever the quantity. */
  lemma UnknownServiceCostsNothing(serviceType: string, qty: Option<real>)
    requires ParseService(serviceType).None?
    ensures CalculateTotal(serviceType, qty) == 0.0
  {
  }

  /** An empty service or an empty quantity costs nothing. */
  lemma EmptyInputCostsNothing(serviceType: string, qty: Option<real>)
    requires serviceType == "" || qty.None?
    ensures CalculateTotal(serviceType, qty) == 0.0
  {
  }

  /** Pricing is linear in the quantity. */
  lemma PriceIsAdditive(serviceType: string, a: real, b: real)
    ensures CalculateTotal(serviceType, Some(a + b))
         == CalculateTotal(serviceType, Some(a)) + CalculateTotal(serviceType, Some(b))
  {
  }

  /** A non-negative quantity never gives a negative total. */
  lemma PriceIsNonNegative(serviceType: string, q: real)
    requires q >= 0.0
    ensures CalculateTotal(serviceType, Some(q)) >= 0.0
  {
  }

  /** The worked examples of the pricing rule. */
  lemma PriceExamples()
    ensures CalculateTotal("Wash & Fold", Some(3.0)) == 150.0
    ensures CalculateTotal("Dry Cleaning", Some(2.0)) == 300.0
    ensures CalculateTotal("Ironing & Pressing", Some(4.0)) == 120.0
    ensures CalculateTotal("", Some(5.0)) == 0.0
    ensures CalculateTotal("Wash & Fold", None) == 0.0
  {
  }
}
