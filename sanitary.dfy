/** The withdrawal badge (src/components/SanitaryAlert.jsx): while a
    medication's withdrawal period runs, the pig must not be sold. Both dates
    are whole days, so the comparison is at day granularity. */
module SanitaryAlert {
  import opened Store

  /** The badge shows: an end date is set and today is not past it. */
  predicate WithdrawalActive(withdrawalEnd: Option<int>, today: int)
  {
    withdrawalEnd.Some? && today <= withdrawalEnd.value
  }

  /** `daysLeft`: whole days from today to the end date. */
  function DaysLeft(withdrawalEnd: int, today: int): int
  {
    withdrawalEnd - today
  }

  /** What the component renders: the days left, or nothing. */
  function Alert(withdrawalEnd: Option<int>, today: int): (shown: Option<int>)
  {
    if WithdrawalActive(withdrawalEnd, today) then Some(DaysLeft(withdrawalEnd.value, today)) else None
  }

  // ----- Properties -----

  /** No end date, no badge; a badge only up to and including the end day,
      with a count that is never negative and is 0 on the end day. */
  lemma AlertWhileWithdrawalRuns(withdrawalEnd: Option<int>, today: int)
    ensures withdrawalEnd.None? ==> Alert(withdrawalEnd, today).None?
    ensures Alert(withdrawalEnd, today).Some? <==> withdrawalEnd.Some? && today <= withdrawalEnd.value
    ensures Alert(withdrawalEnd, today).Some? ==> Alert(withdrawalEnd, today).value >= 0
    ensures withdrawalEnd.Some? && today == withdrawalEnd.value ==> Alert(withdrawalEnd, today) == Some(0)
    ensures withdrawalEnd.Some? && today > withdrawalEnd.value ==> Alert(withdrawalEnd, today).None?
  {
  }

  /** Each passing day lowers the count by one until the badge disappears. */
  lemma CountDownByDay(withdrawalEnd: int, today: int)
    requires today < withdrawalEnd
    ensures Alert(Some(withdrawalEnd), today + 1) == Some(Alert(Some(withdrawalEnd), today).value - 1)
  {
  }
}
