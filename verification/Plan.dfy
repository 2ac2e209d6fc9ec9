/** Generated itineraries: the days, items and costs the generator builds and the validator reads. */
module Plan {
  import opened Wrappers
  import opened Sequences

  /** Amounts are in cents. */
  datatype Estimate = Estimate(cents: Option<real>, category: Option<string>)

  datatype Transfer = Transfer(mode: string, cost: Option<Estimate>)

  datatype PlanItem = PlanItem(
    time: string,
    endTime: Option<string>,
    kind: string,
    name: string,
    note: Option<string>,
    transportMode: Option<string>,
    transfer: Option<Transfer>,
    cost: Option<Estimate>
  )

  /** `date` counts days from a fixed origin. */
  datatype PlanDay = PlanDay(
    number: int,
    date: Option<int>,
    title: string,
    stop: Option<string>,
    transferDay: bool,
    items: seq<PlanItem>
  )

  datatype Pace = Relaxed | Balanced | Intensive

  function ItemsPerDay(pace: Pace): (n: nat)
    ensures 3 <= n <= 5
  {
    match pace
    case Relaxed => 3
    case Balanced => 4
    case Intensive => 5
  }

  const TRANSPORT_MODES: seq<string> :=
    ["walk", "car", "rental_car", "train", "bus", "flight", "boat", "ferry", "bike", "public_transport", "hiking", "other"]

  function CentsOf(item: PlanItem): real {
    match item.cost
    case Some(Estimate(Some(cents), _)) => cents
    case _ => 0.0
  }

  function DayTotal(day: PlanDay): real {
    Sum(day.items, CentsOf)
  }

  function PlanTotal(days: seq<PlanDay>): real {
    Sum(days, DayTotal)
  }
}
