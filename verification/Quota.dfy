/** Quota-aware routing: internal/mux/accounts.go and the capacity test of internal/mux/mux.go. */
module Quota {
  import opened Accounts
  import Collections
  import StableSort
  import Text

  const NANOS_PER_SECOND := 1_000_000_000
  const NANOS_PER_MINUTE := 60 * NANOS_PER_SECOND
  const NANOS_PER_HOUR := 60 * NANOS_PER_MINUTE
  const FALLBACK_WINDOW := 7 * 24 * NANOS_PER_HOUR
  const MINIMUM_WINDOW := NANOS_PER_MINUTE
  const RESET_BONUS_PER_CREDIT := 0.15
  const RESET_BONUS_CREDIT_CAP := 3
  const URGENCY_TOLERANCE := 0.000001
  const USED_TOLERANCE := 0.001
  const UNKNOWN_USED := 1000.0

  const MIN_INT64: int := -0x8000_0000_0000_0000
  const MAX_INT64: int := 0x7fff_ffff_ffff_ffff

  datatype Window = Window(usedPercent: real, durationMins: Option<int>, resetsAt: Option<int>)

  datatype Limits = Limits(primary: Option<Window>, secondary: Option<Window>)

  datatype Snapshot = Snapshot(
    id: string, enabled: bool, connected: bool, authType: string, limits: Option<Limits>, threadCount: int)

  datatype Credits = Credits(known: bool, availableCount: int)

  datatype Candidate = Candidate(
    account: Account, weekly: Option<Window>, weeklyUsed: real, shortUsed: real, threadCount: int, urgency: real)

  // ---- Windows ----

  function Duration(w: Window): int {
    if w.durationMins.None? then 0 else w.durationMins.value
  }

  function Present(w: Option<Window>): seq<Window> {
    if w.None? then [] else [w.value]
  }

  function LongestAndShortest(limits: Option<Limits>): (Option<Window>, Option<Window>) {
    if limits.None? then (None, None)
    else
      var windows := Present(limits.value.primary) + Present(limits.value.secondary);
      if windows == [] then (None, None)
      else
        var sorted := StableSort.Sort(windows, (l: Window, r: Window) => Duration(l) < Duration(r));
        (Some(sorted[|sorted| - 1]), Some(sorted[0]))
  }

  /** The two roles are filled from the two windows by duration; on a tie the secondary window counts as the longer. */
  lemma WindowRoles(limits: Limits)
    ensures var (longest, shortest) := LongestAndShortest(Some(limits));
      match (limits.primary, limits.secondary)
      case (None, None) => longest == None && shortest == None
      case (Some(p), None) => longest == Some(p) && shortest == Some(p)
      case (None, Some(s)) => longest == Some(s) && shortest == Some(s)
      case (Some(p), Some(s)) =>
        if (if s.durationMins.Some? then s.durationMins.value else 0) < (if p.durationMins.Some? then p.durationMins.value else 0)
        then longest == Some(p) && shortest == Some(s)
        else longest == Some(s) && shortest == Some(p)
  {
    var less := (l: Window, r: Window) => Duration(l) < Duration(r);
    match (limits.primary, limits.secondary) {
      case (None, None) =>
      case (Some(p), None) => StableSort.SortOfOne(p, less); assert [p] + [] == [p];
      case (None, Some(s)) => StableSort.SortOfOne(s, less); assert [] + [s] == [s];
      case (Some(p), Some(s)) => StableSort.SortOfTwo(p, s, less); assert [p] + [s] == [p, s];
    }
  }

  function Weekly(s: Snapshot): Option<Window> {
    LongestAndShortest(s.limits).0
  }

  // ---- Urgency ----

  function Wrap64(n: int): (r: int)
    ensures MIN_INT64 <= r <= MAX_INT64
  {
    (n - MIN_INT64) % 0x1_0000_0000_0000_0000 + MIN_INT64
  }

  function Saturate64(n: int): int {
    if n < MIN_INT64 then MIN_INT64 else if n > MAX_INT64 then MAX_INT64 else n
  }

  function Max(x: real, y: real): real {
    if x < y then y else x
  }

  function Min(x: real, y: real): real {
    if y < x then y else x
  }

  /** Nanoseconds over which the remaining quota has to last; `now` is in nanoseconds since the epoch. */
  function Horizon(now: int, weekly: Window): int {
    var window :=
      if weekly.durationMins.Some? && weekly.durationMins.value > 0
      then Wrap64(weekly.durationMins.value * NANOS_PER_MINUTE)
      else FALLBACK_WINDOW;
    var horizon :=
      if weekly.resetsAt.None? then window
      else
        var untilReset := Saturate64(weekly.resetsAt.value * NANOS_PER_SECOND - now);
        if untilReset > 0 then untilReset else window;
    if horizon < MINIMUM_WINDOW then MINIMUM_WINDOW else horizon
  }

  function Bonus(credits: Credits): real {
    if credits.known && credits.availableCount > 0
    then
      var count := if credits.availableCount < RESET_BONUS_CREDIT_CAP then credits.availableCount else RESET_BONUS_CREDIT_CAP;
      1.0 + count as real * RESET_BONUS_PER_CREDIT
    else 1.0
  }

  function Remaining(weekly: Window): real {
    Max(0.0, Min(100.0, 100.0 - weekly.usedPercent))
  }

  function Hours(nanos: int): real {
    nanos as real / NANOS_PER_HOUR as real
  }

  function Urgency(now: int, weekly: Option<Window>, credits: Credits): real
  {
    if weekly.None? then -1.0
    else
      HorizonPositive(now, weekly.value);
      Remaining(weekly.value) / Hours(Horizon(now, weekly.value)) * Bonus(credits)
  }

  lemma HorizonPositive(now: int, weekly: Window)
    ensures Horizon(now, weekly) >= MINIMUM_WINDOW
    ensures Hours(Horizon(now, weekly)) >= 1.0 / 60.0
  {
    var h := Horizon(now, weekly);
    assert h as real / NANOS_PER_HOUR as real >= MINIMUM_WINDOW as real / NANOS_PER_HOUR as real;
  }

  lemma QuotientBounds(r: real, h: real, s: real, g: real)
    requires 0.0 <= r <= s && 0.0 < g <= h
    ensures 0.0 <= r / h <= s / g
  {
    var q, p := r / h, s / g;
    assert q * h == r && p * g == s;
    if q > p {
      assert q * h > p * h >= p * g;
    }
  }

  lemma ProductBounds(q: real, p: real, b: real, c: real)
    requires 0.0 <= q <= p && 0.0 <= b <= c
    ensures 0.0 <= q * b <= p * c
  {
    assert q * b <= p * b <= p * c;
  }

  lemma BonusBounds(credits: Credits)
    ensures 1.0 <= Bonus(credits) <= 1.45
  {
  }

  /** -1 stands for an unknown window; every other score lies between 0 and 8700. */
  lemma UrgencyRange(now: int, weekly: Option<Window>, credits: Credits)
    ensures weekly.None? ==> Urgency(now, weekly, credits) == -1.0
    ensures weekly.Some? ==> 0.0 <= Urgency(now, weekly, credits) <= 8700.0
  {
    if weekly.Some? {
      HorizonPositive(now, weekly.value);
      BonusBounds(credits);
      var q := Remaining(weekly.value) / Hours(Horizon(now, weekly.value));
      QuotientBounds(Remaining(weekly.value), Hours(Horizon(now, weekly.value)), 100.0, 1.0 / 60.0);
      ProductBounds(q, 6000.0, Bonus(credits), 1.45);
    }
  }

  lemma PositiveFactor(x: real, g: real)
    requires g > 0.0 && x * g > 0.0
    ensures x > 0.0
  {
  }

  lemma StrictNumerator(r: real, s: real, h: real)
    requires 0.0 <= r < s && 0.0 < h
    ensures 0.0 <= r / h < s / h
  {
    var q, p := r / h, s / h;
    assert q * h == r && p * h == s;
    assert (p - q) * h == s - r;
    PositiveFactor(p - q, h);
    QuotientBounds(r, h, s, h);
  }

  lemma Spread(p: real, q: real, g: real)
    ensures (p - q) * g == p * g - q * g
  {
  }

  lemma DivideTimes(r: real, h: real)
    requires h > 0.0
    ensures r / h * h == r
  {
  }

  lemma SmallerShare(r: real, h: real, g: real, q: real, p: real)
    requires 0.0 < r && 0.0 < g < h && q * h == r && p * g == r
    ensures 0.0 < q < p
  {
    PositiveFactor(q, h);
    PositiveFactor(p, g);
    StrictBonus(p, g, h);
    Spread(p, q, h);
    PositiveFactor(p - q, h);
  }

  lemma StrictDenominator(r: real, h: real, g: real)
    requires 0.0 < r && 0.0 < g < h
    ensures 0.0 <= r / h < r / g
  {
    DivideTimes(r, h);
    DivideTimes(r, g);
    SmallerShare(r, h, g, r / h, r / g);
  }

  lemma StrictProduct(q: real, p: real, b: real)
    requires 0.0 <= q < p && 1.0 <= b
    ensures q * b < p * b
  {
    assert (p - q) * b > 0.0;
  }

  lemma StrictBonus(q: real, b: real, c: real)
    requires 0.0 < q && b < c
    ensures q * b < q * c
  {
    assert q * (c - b) > 0.0;
  }

  /** The score from its three parts. */
  lemma UrgencyParts(now: int, w: Window, credits: Credits)
    ensures Hours(Horizon(now, w)) > 0.0
    ensures Urgency(now, Some(w), credits) == Remaining(w) / Hours(Horizon(now, w)) * Bonus(credits)
  {
    HorizonPositive(now, w);
  }

  lemma MoreLeft(r: real, s: real, h: real, b: real)
    requires 0.0 <= r <= s && 0.0 < h && 1.0 <= b
    ensures r / h * b <= s / h * b && (r < s ==> r / h * b < s / h * b)
  {
    if r < s {
      StrictNumerator(r, s, h);
      StrictProduct(r / h, s / h, b);
    }
  }

  lemma MoreBonus(r: real, h: real, b: real, c: real)
    requires 0.0 <= r && 0.0 < h && 1.0 <= b <= c
    ensures r / h * b <= r / h * c && (0.0 < r && b < c ==> r / h * b < r / h * c)
  {
    QuotientBounds(r, h, r, h);
    ProductBounds(r / h, r / h, b, c);
    if 0.0 < r && b < c {
      StrictNumerator(0.0, r, h);
      StrictBonus(r / h, b, c);
    }
  }

  /** More usage never raises the score, and lowers it between 0 and 100 percent. */
  lemma UrgencyFallsWithUse(now: int, w: Window, more: real, credits: Credits)
    requires w.usedPercent <= more
    ensures Urgency(now, Some(w.(usedPercent := more)), credits) <= Urgency(now, Some(w), credits)
    ensures 0.0 <= w.usedPercent < more <= 100.0 ==>
      Urgency(now, Some(w.(usedPercent := more)), credits) < Urgency(now, Some(w), credits)
  {
    hide Hours, Urgency, Bonus;
    var v := w.(usedPercent := more);
    BonusBounds(credits);
    assert Horizon(now, v) == Horizon(now, w);
    UrgencyParts(now, w, credits);
    UrgencyParts(now, v, credits);
    MoreLeft(Remaining(v), Remaining(w), Hours(Horizon(now, w)), Bonus(credits));
  }

  /** A reset further in the future never raises the score, and lowers it while quota remains, from a minute ahead on and
      as long as Go can tell the times apart. */
  lemma UrgencyFallsWithLaterReset(now: int, w: Window, later: int, credits: Credits)
    requires w.resetsAt.Some? && now < w.resetsAt.value * NANOS_PER_SECOND && w.resetsAt.value <= later
    ensures Urgency(now, Some(w.(resetsAt := Some(later))), credits) <= Urgency(now, Some(w), credits)
    ensures w.usedPercent < 100.0 && now + 60_000_000_000 <= w.resetsAt.value * 1_000_000_000
            && w.resetsAt.value < later && later * 1_000_000_000 - now <= MAX_INT64 ==>
      Urgency(now, Some(w.(resetsAt := Some(later))), credits) < Urgency(now, Some(w), credits)
  {
    hide Hours, Urgency, Bonus, Horizon;
    var v := w.(resetsAt := Some(later));
    LaterHorizon(now, w, later);
    BonusBounds(credits);
    UrgencyParts(now, w, credits);
    UrgencyParts(now, v, credits);
    HoursMonotone(Horizon(now, w), Horizon(now, v));
    assert 0.0 <= Remaining(w) == Remaining(v) && (w.usedPercent < 100.0 ==> 0.0 < Remaining(w));
    hide Remaining;
    if Horizon(now, w) < Horizon(now, v) {
      HoursStrict(Horizon(now, w), Horizon(now, v));
    }
    Longer(Remaining(w), Hours(Horizon(now, v)), Hours(Horizon(now, w)), Bonus(credits));
  }

  lemma LaterHorizon(now: int, w: Window, later: int)
    requires w.resetsAt.Some? && now < w.resetsAt.value * NANOS_PER_SECOND && w.resetsAt.value <= later
    ensures var v := w.(resetsAt := Some(later));
      && Horizon(now, w) <= Horizon(now, v)
      && ((now + 60_000_000_000 <= w.resetsAt.value * 1_000_000_000 && w.resetsAt.value < later
           && later * 1_000_000_000 - now <= MAX_INT64) ==>
            Horizon(now, w) < Horizon(now, v))
  {
  }

  lemma Longer(r: real, h: real, g: real, b: real)
    requires 0.0 <= r && 0.0 < g <= h && 1.0 <= b
    ensures r / h * b <= r / g * b && (0.0 < r && g < h ==> r / h * b < r / g * b)
  {
    QuotientBounds(r, h, r, g);
    ProductBounds(r / h, r / g, b, b);
    if 0.0 < r && g < h {
      StrictDenominator(r, h, g);
      StrictProduct(r / h, r / g, b);
    }
  }

  lemma HoursStrict(a: int, b: int)
    requires a < b
    ensures Hours(a) < Hours(b)
  {
  }

  lemma HoursMonotone(a: int, b: int)
    requires a <= b
    ensures Hours(a) <= Hours(b)
  {
  }

  /** More banked credits never lower the score and raise it up to three while quota remains; beyond three they no
      longer count. */
  lemma UrgencyRisesWithCredits(now: int, w: Window, few: int, many: int)
    requires few <= many
    ensures Urgency(now, Some(w), Credits(true, few)) <= Urgency(now, Some(w), Credits(true, many))
    ensures few >= 3 ==> Urgency(now, Some(w), Credits(true, few)) == Urgency(now, Some(w), Credits(true, many))
    ensures w.usedPercent < 100.0 && 0 <= few < many && few < 3 ==>
      Urgency(now, Some(w), Credits(true, few)) < Urgency(now, Some(w), Credits(true, many))
  {
    hide Horizon, Hours, Urgency;
    UrgencyParts(now, w, Credits(true, few));
    UrgencyParts(now, w, Credits(true, many));
    BonusRises(few, many);
    MoreBonus(Remaining(w), Hours(Horizon(now, w)), Bonus(Credits(true, few)), Bonus(Credits(true, many)));
  }

  lemma BonusRises(few: int, many: int)
    requires few <= many
    ensures 1.0 <= Bonus(Credits(true, few)) <= Bonus(Credits(true, many))
    ensures few >= 3 ==> Bonus(Credits(true, few)) == Bonus(Credits(true, many))
    ensures 0 <= few < many && few < 3 ==> Bonus(Credits(true, few)) < Bonus(Credits(true, many))
  {
  }

  // ---- What the score is, without its parts ----

  /** The percent of quota left, between 0 and 100. */
  ghost predicate IsLeft(used: real, left: real) {
    if used < 0.0 then left == 100.0 else if used > 100.0 then left == 0.0 else left == 100.0 - used
  }

  /** 15 percent more for each of up to three banked credits. */
  ghost predicate IsBonus(credits: Credits, bonus: real) {
    bonus == if !credits.known || credits.availableCount <= 0 then 1.0
             else if credits.availableCount == 1 then 1.15
             else if credits.availableCount == 2 then 1.3
             else 1.45
  }

  lemma TimesHours(r: real, h: real, b: real)
    requires h > 0.0
    ensures (r / h * b) * h == r * b
  {
    assert r / h * h == r;
    assert (r / h * b) * h == (r / h * h) * b;
  }

  lemma LeftAndBonus(w: Window, credits: Credits, left: real, bonus: real)
    requires IsLeft(w.usedPercent, left) && IsBonus(credits, bonus)
    ensures Remaining(w) == left && Bonus(credits) == bonus
  {
  }

  lemma ScoreTimesHorizon(now: int, w: Window, credits: Credits, left: real, bonus: real)
    requires IsLeft(w.usedPercent, left) && IsBonus(credits, bonus)
    ensures Horizon(now, w) > 0
    ensures Urgency(now, Some(w), credits) * Hours(Horizon(now, w)) == left * bonus
  {
    hide Horizon, Hours, Urgency;
    HorizonPositive(now, w);
    UrgencyParts(now, w, credits);
    LeftAndBonus(w, credits, left, bonus);
    hide Remaining, Bonus;
    TimesHours(left, Hours(Horizon(now, w)), bonus);
  }

  /** Over the hours until a reset at least a minute ahead, the score adds up to the quota left and its bonus; a reset
      nearer than that counts as a minute ahead, one too far for 64 bits as far as they reach. */
  lemma ScoreUntilReset(now: int, w: Window, credits: Credits, left: real, bonus: real)
    requires w.resetsAt.Some? && IsLeft(w.usedPercent, left) && IsBonus(credits, bonus)
    requires now < w.resetsAt.value * 1_000_000_000
    ensures var ahead := w.resetsAt.value * 1_000_000_000 - now;
      var counted := if ahead < 60_000_000_000 then 60_000_000_000 else if ahead > MAX_INT64 then MAX_INT64 else ahead;
      Urgency(now, Some(w), credits) * (counted as real / 3_600_000_000_000.0) == left * bonus
  {
    ScoreTimesHorizon(now, w, credits, left, bonus);
  }

  /** A reset that has passed scores like no reset at all. */
  lemma ScoreAfterReset(now: int, w: Window, credits: Credits)
    requires w.resetsAt.Some? && w.resetsAt.value * 1_000_000_000 <= now
    ensures Urgency(now, Some(w), credits) == Urgency(now, Some(w.(resetsAt := None)), credits)
  {
    assert Horizon(now, w) == Horizon(now, w.(resetsAt := None));
    assert Remaining(w) == Remaining(w.(resetsAt := None));
  }

  /** Without a reset the score adds up over the window's length, or a week when that is unknown. */
  lemma ScoreWithoutReset(now: int, w: Window, credits: Credits, left: real, bonus: real)
    requires w.resetsAt.None? && IsLeft(w.usedPercent, left) && IsBonus(credits, bonus)
    requires w.durationMins.Some? ==> w.durationMins.value * 60_000_000_000 <= MAX_INT64
    ensures var hours := if w.durationMins.Some? && w.durationMins.value > 0
                         then w.durationMins.value as real / 60.0 else 168.0;
      Urgency(now, Some(w), credits) * hours == left * bonus
  {
    hide Urgency, Bonus, Remaining, Hours, Horizon;
    ScoreTimesHorizon(now, w, credits, left, bonus);
    HoursWithoutReset(now, w);
  }

  lemma HoursWithoutReset(now: int, w: Window)
    requires w.resetsAt.None?
    requires w.durationMins.Some? ==> w.durationMins.value * 60_000_000_000 <= MAX_INT64
    ensures Hours(Horizon(now, w)) ==
            if w.durationMins.Some? && w.durationMins.value > 0 then w.durationMins.value as real / 60.0 else 168.0
  {
    if w.durationMins.Some? && w.durationMins.value > 0 {
      assert Wrap64(w.durationMins.value * NANOS_PER_MINUTE) == w.durationMins.value * NANOS_PER_MINUTE;
    }
  }

  // ---- Capacity ----

  predicate Eligible(s: Snapshot) {
    s.enabled && s.connected && s.authType == "chatgpt"
  }

  /** accountHasCapacity. */
  predicate HasCapacity(s: Snapshot) {
    Eligible(s) && (Weekly(s).None? || Weekly(s).value.usedPercent < 100.0)
  }

  /** Capacity, window by window: an enabled and connected subscription has it unless its longer window is used up. */
  lemma CapacityIs(s: Snapshot)
    ensures HasCapacity(s) <==>
      && s.enabled && s.connected && s.authType == "chatgpt"
      && match s.limits
         case None => true
         case Some(Limits(None, None)) => true
         case Some(Limits(Some(p), None)) => p.usedPercent < 100.0
         case Some(Limits(None, Some(q))) => q.usedPercent < 100.0
         case Some(Limits(Some(p), Some(q))) =>
           if Duration(q) < Duration(p) then p.usedPercent < 100.0 else q.usedPercent < 100.0
  {
    if s.limits.Some? {
      hide LongestAndShortest;
      WindowRoles(s.limits.value);
    }
  }

  // ---- Choosing an account ----

  predicate Close(x: real, y: real, tolerance: real) {
    -tolerance <= x - y <= tolerance
  }

  /** The source's tolerant comparator. */
  predicate Before(l: Candidate, r: Candidate) {
    if !Close(l.urgency, r.urgency, URGENCY_TOLERANCE) then l.urgency > r.urgency
    else if !Close(l.shortUsed, r.shortUsed, USED_TOLERANCE) then l.shortUsed < r.shortUsed
    else if !Close(l.weeklyUsed, r.weeklyUsed, USED_TOLERANCE) then l.weeklyUsed < r.weeklyUsed
    else if l.threadCount != r.threadCount then l.threadCount < r.threadCount
    else l.account.createdAt < r.account.createdAt
  }

  /** The same keys compared exactly. */
  predicate Better(l: Candidate, r: Candidate) {
    if l.urgency != r.urgency then l.urgency > r.urgency
    else if l.shortUsed != r.shortUsed then l.shortUsed < r.shortUsed
    else if l.weeklyUsed != r.weeklyUsed then l.weeklyUsed < r.weeklyUsed
    else if l.threadCount != r.threadCount then l.threadCount < r.threadCount
    else l.account.createdAt < r.account.createdAt
  }

  function UsedOr(w: Option<Window>): real {
    if w.None? then UNKNOWN_USED else w.value.usedPercent
  }

  /** What the source's first loop appends for one snapshot, with no urgency yet. */
  function CandidateOf(s: Snapshot, excluded: set<string>, accounts: seq<Account>): seq<Candidate> {
    var account := Find(accounts, s.id);
    if s.id in excluded || !HasCapacity(s) || account.None? then []
    else
      var (weekly, short) := LongestAndShortest(s.limits);
      [Candidate(account.value, weekly, UsedOr(weekly), UsedOr(short), s.threadCount, 0.0)]
  }

  function Candidates(snapshots: seq<Snapshot>, excluded: set<string>, accounts: seq<Account>): seq<Candidate> {
    if snapshots == [] then []
    else Candidates(snapshots[..|snapshots| - 1], excluded, accounts) +
         CandidateOf(snapshots[|snapshots| - 1], excluded, accounts)
  }

  lemma NoCandidates(excluded: set<string>, accounts: seq<Account>)
    ensures Candidates([], excluded, accounts) == []
  {
  }

  lemma CandidatesNext(snapshots: seq<Snapshot>, i: nat, excluded: set<string>, accounts: seq<Account>)
    requires i < |snapshots|
    ensures var before := Candidates(snapshots[..i], excluded, accounts);
      && Candidates(snapshots[..i + 1], excluded, accounts) == before + CandidateOf(snapshots[i], excluded, accounts)
      && before + [] == before
  {
    hide CandidateOf;
    assert snapshots[..i + 1][..i] == snapshots[..i];
  }

  /** Reset credits by account; an account whose lookup did not finish has none known. */
  function CreditsFor(credits: map<string, Credits>, id: string): Credits {
    if id in credits then credits[id] else Credits(false, 0)
  }

  function Score(c: Candidate, credits: map<string, Credits>, now: int): Candidate {
    c.(urgency := Urgency(now, c.weekly, CreditsFor(credits, c.account.id)))
  }

  function Scored(cs: seq<Candidate>, credits: map<string, Credits>, now: int): (r: seq<Candidate>)
    ensures |r| == |cs| && forall i :: 0 <= i < |cs| ==> r[i] == Score(cs[i], credits, now)
  {
    seq(|cs|, i requires 0 <= i < |cs| => Score(cs[i], credits, now))
  }

  function Ranked(cs: seq<Candidate>): seq<Candidate> {
    StableSort.Sort(cs, Before)
  }

  function Choose(snapshots: seq<Snapshot>, excluded: set<string>, accounts: seq<Account>,
                  credits: map<string, Credits>, now: int): Option<Account>
  {
    var cs := Candidates(snapshots, excluded, accounts);
    if cs == [] then None else Some(Ranked(Scored(cs, credits, now))[0].account)
  }

  /** The second loop, which fills in each candidate's urgency. */
  method ScoreAll(candidates: array<Candidate>, credits: map<string, Credits>, now: int)
    modifies candidates
    ensures candidates[..] == Scored(old(candidates[..]), credits, now)
  {
    hide Urgency;
    ghost var was := candidates[..];
    for i := 0 to candidates.Length
      invariant forall k :: 0 <= k < candidates.Length ==>
        candidates[k] == if k < i then Score(was[k], credits, now) else was[k]
    {
      var entry := candidates[i];
      candidates[i] := entry.(urgency := Urgency(now, entry.weekly, CreditsFor(credits, entry.account.id)));
    }
  }

  /** chooseAccountExcluding, given the snapshots and the reset credits it collected. */
  method ChooseAccountExcluding(snapshots: seq<Snapshot>, excluded: set<string>, accounts: seq<Account>,
                                credits: map<string, Credits>, now: int) returns (choice: Option<Account>)
    ensures choice == Choose(snapshots, excluded, accounts, credits, now)
  {
    hide Urgency, LongestAndShortest, Scored, Find, Candidates;
    var found: seq<Candidate> := [];
    NoCandidates(excluded, accounts);
    for i := 0 to |snapshots|
      invariant found == Candidates(snapshots[..i], excluded, accounts)
    {
      var snapshot := snapshots[i];
      CandidatesNext(snapshots, i, excluded, accounts);
      if snapshot.id in excluded {
        continue;
      }
      if !snapshot.enabled || !snapshot.connected || snapshot.authType != "chatgpt" {
        continue;
      }
      var account := Find(accounts, snapshot.id);
      if account.None? {
        continue;
      }
      var (weekly, short) := LongestAndShortest(snapshot.limits);
      if weekly.Some? && weekly.value.usedPercent >= 100.0 {
        continue;
      }
      var weeklyUsed, shortUsed := UNKNOWN_USED, UNKNOWN_USED;
      if weekly.Some? {
        weeklyUsed := weekly.value.usedPercent;
      }
      if short.Some? {
        shortUsed := short.value.usedPercent;
      }
      found := found + [Candidate(account.value, weekly, weeklyUsed, shortUsed, snapshot.threadCount, 0.0)];
    }
    assert snapshots[..|snapshots|] == snapshots;
    if |found| == 0 {
      return None;
    }
    var ranked := new Candidate[|found|](i requires 0 <= i < |found| => found[i]);
    assert ranked[..] == found;
    ScoreAll(ranked, credits, now);
    StableSort.InsertionSort(ranked, Before);
    choice := Some(ranked[..][0].account);
  }

  /** `c` is the candidate a non-excluded snapshot with capacity gives rise to. */
  ghost predicate Yields(s: Snapshot, excluded: set<string>, accounts: seq<Account>, c: Candidate) {
    && s.id !in excluded && HasCapacity(s) && Find(accounts, s.id) == Some(c.account)
    && var (weekly, short) := LongestAndShortest(s.limits);
       && c.weekly == weekly && c.threadCount == s.threadCount
       && c.weeklyUsed == (if weekly.Some? then weekly.value.usedPercent else 1000.0)
       && c.shortUsed == (if short.Some? then short.value.usedPercent else 1000.0)
  }

  ghost predicate Qualifies(s: Snapshot, excluded: set<string>, accounts: seq<Account>) {
    s.id !in excluded && HasCapacity(s) && Find(accounts, s.id).Some?
  }

  lemma CandidateOfYields(s: Snapshot, excluded: set<string>, accounts: seq<Account>)
    ensures Qualifies(s, excluded, accounts) <==> CandidateOf(s, excluded, accounts) != []
    ensures forall c :: c in CandidateOf(s, excluded, accounts) ==> Yields(s, excluded, accounts, c)
  {
    hide LongestAndShortest, Find;
  }

  lemma {:induction false} CandidatesSound(snapshots: seq<Snapshot>, excluded: set<string>, accounts: seq<Account>)
    ensures forall c :: c in Candidates(snapshots, excluded, accounts) ==>
      exists s :: s in snapshots && Yields(s, excluded, accounts, c)
  {
    hide Yields, Qualifies, CandidateOf;
    if snapshots != [] {
      var init, last := snapshots[..|snapshots| - 1], snapshots[|snapshots| - 1];
      CandidatesSound(init, excluded, accounts);
      CandidateOfYields(last, excluded, accounts);
      assert last in snapshots && forall s :: s in init ==> s in snapshots;
    }
  }

  lemma {:induction false} CandidatesComplete(snapshots: seq<Snapshot>, excluded: set<string>, accounts: seq<Account>)
    ensures forall s :: s in snapshots && Qualifies(s, excluded, accounts) ==>
      exists c :: c in Candidates(snapshots, excluded, accounts) && Yields(s, excluded, accounts, c)
  {
    hide Yields, Qualifies, CandidateOf;
    if snapshots != [] {
      var init, last := snapshots[..|snapshots| - 1], snapshots[|snapshots| - 1];
      CandidatesComplete(init, excluded, accounts);
      CandidateOfYields(last, excluded, accounts);
      var cs := Candidates(snapshots, excluded, accounts);
      assert forall c :: c in Candidates(init, excluded, accounts) ==> c in cs;
      assert snapshots == init + [last];
      if Qualifies(last, excluded, accounts) {
        assert CandidateOf(last, excluded, accounts)[0] in cs;
      }
    }
  }

  /** The chosen account is the account of one of the scored candidates. */
  lemma WinnerIsCandidate(cs: seq<Candidate>)
    requires cs != []
    ensures Ranked(cs)[0] in cs
  {
    StableSort.SortMembers(cs, Before);
  }

  lemma ChosenCandidate(snapshots: seq<Snapshot>, excluded: set<string>, accounts: seq<Account>,
                        credits: map<string, Credits>, now: int) returns (c: Candidate)
    requires Choose(snapshots, excluded, accounts, credits, now).Some?
    ensures c in Candidates(snapshots, excluded, accounts)
    ensures Choose(snapshots, excluded, accounts, credits, now) == Some(c.account)
    ensures Ranked(Scored(Candidates(snapshots, excluded, accounts), credits, now))[0] == Score(c, credits, now)
  {
    hide Urgency, Candidates, Before;
    var cs := Candidates(snapshots, excluded, accounts);
    var scored := Scored(cs, credits, now);
    WinnerIsCandidate(scored);
    var i :| 0 <= i < |scored| && scored[i] == Ranked(scored)[0];
    c := cs[i];
  }

  /** A chosen account is known to the store, was not excluded and had capacity in the snapshots used. */
  lemma ChosenHasCapacity(snapshots: seq<Snapshot>, excluded: set<string>, accounts: seq<Account>,
                          credits: map<string, Credits>, now: int)
    ensures var choice := Choose(snapshots, excluded, accounts, credits, now);
      choice.Some? ==>
        && choice.value in accounts && choice.value.id !in excluded
        && exists s :: s in snapshots && s.id == choice.value.id && HasCapacity(s)
  {
    hide Urgency, Before, LongestAndShortest, Candidates;
    if Choose(snapshots, excluded, accounts, credits, now).Some? {
      var c := ChosenCandidate(snapshots, excluded, accounts, credits, now);
      CandidatesSound(snapshots, excluded, accounts);
      var s :| s in snapshots && Yields(s, excluded, accounts, c);
      assert s.id == c.account.id;
    }
  }

  /** Choice fails exactly when every known account with capacity is excluded. */
  lemma ChoiceFailsIff(snapshots: seq<Snapshot>, excluded: set<string>, accounts: seq<Account>,
                       credits: map<string, Credits>, now: int)
    ensures Choose(snapshots, excluded, accounts, credits, now).None? <==>
            forall s :: s in snapshots && HasCapacity(s) && Find(accounts, s.id).Some? ==> s.id in excluded
  {
    hide Urgency, LongestAndShortest, Candidates, Find, HasCapacity;
    CandidatesSound(snapshots, excluded, accounts);
    CandidatesComplete(snapshots, excluded, accounts);
    var cs := Candidates(snapshots, excluded, accounts);
    if cs != [] {
      assert cs[0] in cs;
    } else {
      forall s | s in snapshots && HasCapacity(s) && Find(accounts, s.id).Some? ensures s.id in excluded {
        assert !Qualifies(s, excluded, accounts);
      }
    }
  }

  // ---- How good the winner is ----

  lemma BeforeAsymmetric()
    ensures StableSort.Asymmetric(Before)
  {
  }

  lemma {:induction false} WinnerTrails(ranked: seq<Candidate>, k: nat)
    requires StableSort.NeighboursOrdered(ranked, Before) && k < |ranked|
    ensures ranked[0].urgency >= ranked[k].urgency - k as real * URGENCY_TOLERANCE
  {
    if k > 0 {
      WinnerTrails(ranked, k - 1);
      assert !Before(ranked[k - 1 + 1], ranked[k - 1]);
      assert k as real * URGENCY_TOLERANCE == (k - 1) as real * URGENCY_TOLERANCE + URGENCY_TOLERANCE;
    }
  }

  /** The comparator is not transitive, so the winner need not be the most urgent candidate:
      it falls short of the maximum by at most one tolerance per other candidate. */
  lemma WinnerNearMaximum(cs: seq<Candidate>)
    requires cs != []
    ensures forall c :: c in cs ==>
      Ranked(cs)[0].urgency >= c.urgency - (|cs| - 1) as real * URGENCY_TOLERANCE
  {
    hide Before;
    var ranked := Ranked(cs);
    BeforeAsymmetric();
    StableSort.SortOrdersNeighbours(cs, Before);
    StableSort.SortMembers(cs, Before);
    forall c | c in cs ensures ranked[0].urgency >= c.urgency - (|cs| - 1) as real * URGENCY_TOLERANCE {
      assert c in ranked;
      var k :| 0 <= k < |ranked| && ranked[k] == c;
      WinnerTrails(ranked, k);
      assert k as real * URGENCY_TOLERANCE <= (|cs| - 1) as real * URGENCY_TOLERANCE;
    }
  }

  /** Three subscriptions with the same weekly window, each within tolerance of the next in urgency. */
  function NarrowSnapshots(): seq<Snapshot> {
    [NarrowSnapshot("a", 50.0, 0.0, 0), NarrowSnapshot("b", 49.99985, 1.0, 0), NarrowSnapshot("c", 49.9997, 2.0, 0)]
  }

  function NarrowSnapshot(id: string, weeklyUsed: real, shortUsed: real, threads: int): Snapshot {
    Snapshot(id, true, true, "chatgpt",
             Some(Limits(Some(Window(shortUsed, Some(300), None)), Some(Window(weeklyUsed, Some(10080), None)))), threads)
  }

  function NarrowAccount(id: string): Account {
    Account(id, id, "", true, id == "a" || id == "0", 0)
  }

  function NarrowCandidate(id: string, weeklyUsed: real, shortUsed: real, threads: int): Candidate {
    Candidate(NarrowAccount(id), Some(Window(weeklyUsed, Some(10080), None)), weeklyUsed, shortUsed, threads,
              (100.0 - weeklyUsed) / 168.0)
  }

  lemma NarrowUrgency(used: real, now: int)
    requires 0.0 <= used <= 100.0
    ensures Urgency(now, Some(Window(used, Some(10080), None)), Credits(false, 0)) == (100.0 - used) / 168.0
  {
    var w := Window(used, Some(10080), None);
    assert Horizon(now, w) == 168 * NANOS_PER_HOUR;
    assert Hours(Horizon(now, w)) == 168.0;
    assert Bonus(Credits(false, 0)) == 1.0;
  }

  lemma NarrowScored(id: string, weeklyUsed: real, shortUsed: real, threads: int, accounts: seq<Account>, now: int)
    requires 0.0 <= weeklyUsed < 100.0 && Find(accounts, id) == Some(NarrowAccount(id))
    ensures |CandidateOf(NarrowSnapshot(id, weeklyUsed, shortUsed, threads), {}, accounts)| == 1
    ensures Score(CandidateOf(NarrowSnapshot(id, weeklyUsed, shortUsed, threads), {}, accounts)[0], map[], now)
            == NarrowCandidate(id, weeklyUsed, shortUsed, threads)
  {
    hide LongestAndShortest, Urgency, Find;
    WindowRoles(NarrowSnapshot(id, weeklyUsed, shortUsed, threads).limits.value);
    NarrowUrgency(weeklyUsed, now);
  }

  /** The scored candidates of the three subscriptions, in snapshot order. */
  lemma NarrowCandidates(accounts: seq<Account>, now: int)
    requires accounts == [NarrowAccount("a"), NarrowAccount("b"), NarrowAccount("c")]
    ensures Scored(Candidates(NarrowSnapshots(), {}, accounts), map[], now) ==
            [NarrowCandidate("a", 50.0, 0.0, 0), NarrowCandidate("b", 49.99985, 1.0, 0),
             NarrowCandidate("c", 49.9997, 2.0, 0)]
  {
    hide CandidateOf, Score, Find, NarrowSnapshot, NarrowCandidate, NarrowAccount;
    NarrowAccountsFound(accounts);
    NarrowScored("a", 50.0, 0.0, 0, accounts, now);
    NarrowScored("b", 49.99985, 1.0, 0, accounts, now);
    NarrowScored("c", 49.9997, 2.0, 0, accounts, now);
    var ss := NarrowSnapshots();
    var x, y, z := CandidateOf(ss[0], {}, accounts), CandidateOf(ss[1], {}, accounts), CandidateOf(ss[2], {}, accounts);
    CandidatesOfThree(ss[0], ss[1], ss[2], {}, accounts);
    assert x + y + z == [x[0], y[0], z[0]];
  }

  lemma NarrowAccountsFound(accounts: seq<Account>)
    requires accounts == [NarrowAccount("a"), NarrowAccount("b"), NarrowAccount("c")]
    ensures Find(accounts, "a") == Some(NarrowAccount("a")) && Find(accounts, "b") == Some(NarrowAccount("b"))
    ensures Find(accounts, "c") == Some(NarrowAccount("c"))
  {
    assert accounts[1..] == [NarrowAccount("b"), NarrowAccount("c")] && accounts[1..][1..] == [NarrowAccount("c")];
    assert Find(accounts, "b") == Find(accounts[1..], "b");
    assert Find(accounts, "c") == Find(accounts[1..], "c") == Find(accounts[1..][1..], "c");
  }

  lemma CandidatesOfThree(s: Snapshot, t: Snapshot, u: Snapshot, excluded: set<string>, accounts: seq<Account>)
    ensures Candidates([s, t, u], excluded, accounts) ==
            CandidateOf(s, excluded, accounts) + CandidateOf(t, excluded, accounts) + CandidateOf(u, excluded, accounts)
  {
    hide CandidateOf;
    assert [s, t, u][..2] == [s, t] && [s, t][..1] == [s] && [s][..0] == [];
    assert Candidates([s], excluded, accounts) == [] + CandidateOf(s, excluded, accounts) == CandidateOf(s, excluded, accounts);
    assert Candidates([s, t], excluded, accounts) == CandidateOf(s, excluded, accounts) + CandidateOf(t, excluded, accounts);
  }

  /** A real choice whose winner another candidate precedes: subscription a is chosen, although c is more urgent by
      more than the tolerance, because b lies within tolerance of both. */
  lemma WinnerNotMaximal(now: int)
    ensures var accounts := [NarrowAccount("a"), NarrowAccount("b"), NarrowAccount("c")];
      var scored := Scored(Candidates(NarrowSnapshots(), {}, accounts), map[], now);
      && Choose(NarrowSnapshots(), {}, accounts, map[], now) == Some(NarrowAccount("a"))
      && |scored| == 3 && scored[2].account == NarrowAccount("c") && Ranked(scored)[0].account == NarrowAccount("a")
      && Before(scored[2], Ranked(scored)[0])
      && scored[2].urgency > Ranked(scored)[0].urgency + URGENCY_TOLERANCE
  {
    hide Scored, Candidates;
    var accounts := [NarrowAccount("a"), NarrowAccount("b"), NarrowAccount("c")];
    NarrowCandidates(accounts, now);
    var scored := Scored(Candidates(NarrowSnapshots(), {}, accounts), map[], now);
    var x, y, z := scored[0], scored[1], scored[2];
    assert !Before(y, x) && !Before(z, y) && Before(z, x);
    ChainKeepsOrder(x, y, z);
  }

  /** Three candidates of which neither follower precedes its neighbour stay as they are. */
  lemma ChainKeepsOrder(x: Candidate, y: Candidate, z: Candidate)
    requires !Before(y, x) && !Before(z, y)
    ensures Ranked([x, y, z]) == [x, y, z]
  {
    hide Before;
    assert [x, y, z][..2] == [x, y];
    StableSort.SortOfTwo(x, y, Before);
    assert Ranked([x, y, z]) == StableSort.InsertLast([x, y], z, Before);
  }

  // ---- The bound on the winner's shortfall is attained ----

  /** The weekly usage that makes subscription `k` more urgent than the first by exactly `k` tolerances. */
  function StairUsed(k: nat): real {
    50.0 - 0.000168 * k as real
  }

  function StairAccounts(n: nat): seq<Account> {
    if n == 0 then [] else StairAccounts(n - 1) + [NarrowAccount(Text.Decimal(n - 1))]
  }

  /** `n` subscriptions, each a tolerance more urgent and with one thread more than the one before. */
  function StairSnapshots(n: nat): seq<Snapshot> {
    if n == 0 then []
    else StairSnapshots(n - 1) + [NarrowSnapshot(Text.Decimal(n - 1), StairUsed(n - 1), 0.0, n - 1)]
  }

  function StairCandidates(n: nat): (r: seq<Candidate>)
    ensures |r| == n && forall k :: 0 <= k < n ==> r[k] == NarrowCandidate(Text.Decimal(k), StairUsed(k), 0.0, k)
  {
    if n == 0 then []
    else StairCandidates(n - 1) + [NarrowCandidate(Text.Decimal(n - 1), StairUsed(n - 1), 0.0, n - 1)]
  }

  lemma StairNeighbours(k: nat)
    requires k > 0
    ensures !Before(NarrowCandidate(Text.Decimal(k), StairUsed(k), 0.0, k),
                    NarrowCandidate(Text.Decimal(k - 1), StairUsed(k - 1), 0.0, k - 1))
  {
    assert StairUsed(k) == StairUsed(k - 1) - 0.000168;
    assert (100.0 - StairUsed(k)) / 168.0 == (100.0 - StairUsed(k - 1)) / 168.0 + 0.000001;
  }

  lemma StairUrgency(k: nat)
    ensures (100.0 - StairUsed(k)) / 168.0 == (100.0 - StairUsed(0)) / 168.0 + k as real * URGENCY_TOLERANCE
  {
  }

  /** For every number of candidates the winner can fall short by exactly one tolerance per other candidate. */
  lemma {:induction false} BoundAttained(n: nat)
    requires n > 0
    ensures var cs := StairCandidates(n);
      && Ranked(cs) == cs
      && Ranked(cs)[0].urgency == cs[n - 1].urgency - (|cs| - 1) as real * URGENCY_TOLERANCE
  {
    hide Before, Text.Decimal, StairUsed;
    var cs := StairCandidates(n);
    forall i | 0 <= i < |cs| - 1 ensures !Before(cs[i + 1], cs[i]) {
      StairNeighbours(i + 1);
    }
    StableSort.OrderedStays(cs, Before);
    StairUrgency(n - 1);
  }

  lemma {:induction false} StairAccountsAre(n: nat)
    ensures |StairAccounts(n)| == n && forall k :: 0 <= k < n ==> StairAccounts(n)[k] == NarrowAccount(Text.Decimal(k))
  {
    hide Text.Decimal, NarrowAccount;
    if n > 0 {
      StairAccountsAre(n - 1);
    }
  }

  lemma StairAccountFound(n: nat, k: nat)
    requires k < n
    ensures Find(StairAccounts(n), Text.Decimal(k)) == Some(NarrowAccount(Text.Decimal(k)))
  {
    hide Find, Text.Decimal;
    var accounts := StairAccounts(n);
    StairAccountsAre(n);
    forall i, j | 0 <= i < j < n ensures accounts[i].id != accounts[j].id {
      if Text.Decimal(i) == Text.Decimal(j) {
        Text.DecimalInjective(i, j);
      }
    }
    FindDistinct(accounts, k);
  }

  lemma ScoredSnoc(cs: seq<Candidate>, c: Candidate, credits: map<string, Credits>, now: int)
    ensures Scored(cs + [c], credits, now) == Scored(cs, credits, now) + [Score(c, credits, now)]
  {
    hide Score;
  }

  lemma {:induction false} StairScored(n: nat, all: nat, now: int)
    requires n <= all && n as real * 0.000168 <= 50.0
    ensures Scored(Candidates(StairSnapshots(n), {}, StairAccounts(all)), map[], now) == StairCandidates(n)
  {
    hide CandidateOf, Score, Scored, NarrowSnapshot, NarrowCandidate, Text.Decimal, StairAccounts, NarrowAccount, StairUsed;
    if n == 0 {
      NothingScored(now);
    } else {
      StairScored(n - 1, all, now);
      StairAccountFound(all, n - 1);
      StairUsedRange(n - 1);
      NarrowScored(Text.Decimal(n - 1), StairUsed(n - 1), 0.0, n - 1, StairAccounts(all), now);
      var ss := StairSnapshots(n);
      assert ss[..n - 1] == StairSnapshots(n - 1) by { StairSnapshotsSize(n - 1); }
      StairSnapshotsSize(n);
      var found := CandidateOf(ss[n - 1], {}, StairAccounts(all));
      assert found == [found[0]];
      ScoredSnoc(Candidates(ss[..n - 1], {}, StairAccounts(all)), found[0], map[], now);
    }
  }

  lemma NothingScored(now: int)
    ensures Scored([], map[], now) == []
  {
  }

  lemma {:induction false} StairSnapshotsSize(n: nat)
    ensures |StairSnapshots(n)| == n
  {
    hide Text.Decimal, NarrowSnapshot, StairUsed;
    if n > 0 {
      StairSnapshotsSize(n - 1);
    }
  }

  lemma StairUsedRange(k: nat)
    requires k as real * 0.000168 <= 50.0
    ensures 0.0 <= StairUsed(k) < 100.0
  {
  }

  /** The same through real snapshots, for as many subscriptions as usage percentages leave room for. */
  lemma BoundAttainedByChoice(n: nat, now: int)
    requires n > 0 && n as real * 0.000168 <= 50.0
    ensures var scored := Scored(Candidates(StairSnapshots(n), {}, StairAccounts(n)), map[], now);
      && |scored| == n && Choose(StairSnapshots(n), {}, StairAccounts(n), map[], now) == Some(scored[0].account)
      && Ranked(scored)[0].urgency == scored[n - 1].urgency - (n - 1) as real * URGENCY_TOLERANCE
  {
    hide Before, Scored, Candidates, StairCandidates, StairUsed, Text.Decimal, NarrowCandidate, Ranked;
    StairScored(n, n, now);
    BoundAttained(n);
  }

  // ---- Exactly when the comparator can be trusted ----

  /** `cs` lists some of `s` without repetition, as snapshots of different accounts do. */
  ghost predicate Drawn(cs: seq<Candidate>, s: set<Candidate>) {
    cs != [] && Collections.Distinct(cs) && forall c :: c in cs ==> c in s
  }

  /** No candidate precedes the winner. */
  ghost predicate Unbeaten(cs: seq<Candidate>)
    requires cs != []
  {
    forall c :: c in cs ==> !Before(c, Ranked(cs)[0])
  }

  /** No candidate is more urgent than the winner. */
  ghost predicate MostUrgent(cs: seq<Candidate>)
    requires cs != []
  {
    forall c :: c in cs ==> Ranked(cs)[0].urgency >= c.urgency
  }

  /** Within `s`, "does not precede" passes from neighbour to neighbour. */
  ghost predicate ChainsHold(s: set<Candidate>) {
    forall x, y, z :: x in s && y in s && z in s && !Before(y, x) && !Before(z, y) ==> !Before(z, x)
  }

  /** Within `s`, the tolerance never hides a difference in urgency. */
  ghost predicate UrgencyDecides(s: set<Candidate>) {
    forall l, r :: l in s && r in s && l.urgency > r.urgency ==> Before(l, r)
  }

  lemma {:induction false} ChainFromWinner(ranked: seq<Candidate>, s: set<Candidate>, k: nat)
    requires StableSort.NeighboursOrdered(ranked, Before) && k < |ranked|
    requires ChainsHold(s) && forall c :: c in ranked ==> c in s
    ensures !Before(ranked[k], ranked[0])
  {
    if k == 0 {
      BeforeAsymmetric();
    } else {
      ChainFromWinner(ranked, s, k - 1);
      hide Before;
      assert !Before(ranked[k - 1 + 1], ranked[k - 1]);
      assert ranked[0] in s && ranked[k - 1] in s && ranked[k] in s;
    }
  }

  lemma {:induction false} UrgencyFromWinner(ranked: seq<Candidate>, s: set<Candidate>, k: nat)
    requires StableSort.NeighboursOrdered(ranked, Before) && k < |ranked|
    requires UrgencyDecides(s) && forall c :: c in ranked ==> c in s
    ensures ranked[0].urgency >= ranked[k].urgency
  {
    if k > 0 {
      UrgencyFromWinner(ranked, s, k - 1);
      hide Before;
      assert !Before(ranked[k - 1 + 1], ranked[k - 1]);
      assert ranked[k - 1] in s && ranked[k] in s;
    }
  }

  lemma RankedFacts(cs: seq<Candidate>)
    ensures StableSort.NeighboursOrdered(Ranked(cs), Before) && forall c :: c in cs <==> c in Ranked(cs)
  {
    BeforeAsymmetric();
    StableSort.SortOrdersNeighbours(cs, Before);
    StableSort.SortMembers(cs, Before);
  }

  lemma PairKeepsOrder(x: Candidate, y: Candidate)
    requires !Before(y, x)
    ensures Ranked([x, y]) == [x, y]
  {
    hide Before;
    StableSort.SortOfTwo(x, y, Before);
  }

  lemma ChainsGiveUnbeaten(s: set<Candidate>, cs: seq<Candidate>)
    requires ChainsHold(s) && Drawn(cs, s)
    ensures Unbeaten(cs)
  {
    hide Before, Ranked, ChainsHold;
    RankedFacts(cs);
    var ranked := Ranked(cs);
    forall c | c in cs ensures !Before(c, ranked[0]) {
      var k :| 0 <= k < |ranked| && ranked[k] == c;
      ChainFromWinner(ranked, s, k);
    }
  }

  /** Whichever candidates of `s` compete and in whatever order they are listed, none precedes the winner:
      this holds exactly when "does not precede" is transitive on `s`. */
  lemma WinnerUnbeatenIff(s: set<Candidate>)
    ensures (forall cs: seq<Candidate> :: Drawn(cs, s) ==> Unbeaten(cs)) <==> ChainsHold(s)
  {
    hide Before, Ranked;
    if ChainsHold(s) {
      forall cs: seq<Candidate> | Drawn(cs, s) ensures Unbeaten(cs) {
        ChainsGiveUnbeaten(s, cs);
      }
    }
    if forall cs: seq<Candidate> :: Drawn(cs, s) ==> Unbeaten(cs) {
      BeforeAsymmetric();
      forall x, y, z | x in s && y in s && z in s && !Before(y, x) && !Before(z, y) ensures !Before(z, x) {
        if x != y && y != z && x != z {
          assert Drawn([x, y, z], s) && z in [x, y, z];
          ChainKeepsOrder(x, y, z);
        }
      }
    }
  }

  lemma UrgencyGivesMostUrgent(s: set<Candidate>, cs: seq<Candidate>)
    requires UrgencyDecides(s) && cs != [] && forall c :: c in cs ==> c in s
    ensures MostUrgent(cs)
  {
    hide Before, Ranked, UrgencyDecides;
    RankedFacts(cs);
    var ranked := Ranked(cs);
    forall c | c in cs ensures ranked[0].urgency >= c.urgency {
      var k :| 0 <= k < |ranked| && ranked[k] == c;
      UrgencyFromWinner(ranked, s, k);
    }
  }

  /** Whichever candidates of `s` compete and in whatever order they are listed, the winner has the greatest urgency:
      this holds exactly when every more urgent candidate of `s` precedes every less urgent one. */
  lemma WinnerMostUrgentIff(s: set<Candidate>)
    ensures (forall cs: seq<Candidate> :: Drawn(cs, s) ==> MostUrgent(cs)) <==> UrgencyDecides(s)
  {
    hide Before, Ranked;
    if UrgencyDecides(s) {
      forall cs: seq<Candidate> | Drawn(cs, s) ensures MostUrgent(cs) {
        UrgencyGivesMostUrgent(s, cs);
      }
    }
    if forall cs: seq<Candidate> :: Drawn(cs, s) ==> MostUrgent(cs) {
      forall l, r | l in s && r in s && l.urgency > r.urgency ensures Before(l, r) {
        if !Before(l, r) {
          assert Drawn([r, l], s) && l in [r, l];
          PairKeepsOrder(r, l);
        }
      }
    }
  }

  /** The winner has the greatest urgency when urgencies alone are equal or more than a tolerance apart. */
  lemma WinnerMostUrgent(cs: seq<Candidate>)
    requires cs != [] && forall l, r :: l in cs && r in cs ==> Unblurred(l.urgency, r.urgency, URGENCY_TOLERANCE)
    ensures MostUrgent(cs)
  {
    var s := set c | c in cs;
    assert UrgencyDecides(s);
    UrgencyGivesMostUrgent(s, cs);
  }

  /** Two values the tolerance cannot blur. */
  predicate Unblurred(x: real, y: real, tolerance: real) {
    x == y || !Close(x, y, tolerance)
  }

  predicate Separated(l: Candidate, r: Candidate) {
    && Unblurred(l.urgency, r.urgency, URGENCY_TOLERANCE)
    && Unblurred(l.shortUsed, r.shortUsed, USED_TOLERANCE)
    && Unblurred(l.weeklyUsed, r.weeklyUsed, USED_TOLERANCE)
  }

  lemma BetterWeak()
    ensures StableSort.Weak(Better)
  {
  }

  /** When every key difference is zero or above tolerance, no candidate is better than the winner. */
  lemma WinnerBestWhenSeparated(cs: seq<Candidate>)
    requires cs != [] && forall l, r :: l in cs && r in cs ==> Separated(l, r)
    ensures forall c :: c in cs ==> !Better(c, Ranked(cs)[0])
  {
    forall l, r | l in cs && r in cs ensures Before(l, r) == Better(l, r) {
      assert Separated(l, r);
    }
    hide Before, Better, Separated;
    StableSort.SortCongruent(cs, Before, Better);
    BetterWeak();
    StableSort.SortOrders(cs, Better);
    StableSort.SortMembers(cs, Better);
    var ranked := Ranked(cs);
    forall c | c in cs ensures !Better(c, ranked[0]) {
      assert c in StableSort.Sort(cs, Better);
      var k :| 0 <= k < |ranked| && ranked[k] == c;
      if k == 0 {
        assert StableSort.Asymmetric(Better);
      }
    }
  }

  /** `t` ranks before `s` by the source's keys compared exactly: urgency, usage of the shorter and of the longer window
      (1000 when unknown), threads, age. */
  ghost predicate Outranks(t: Snapshot, s: Snapshot, accounts: seq<Account>, credits: map<string, Credits>, now: int)
    requires Find(accounts, t.id).Some? && Find(accounts, s.id).Some?
  {
    var (tLong, tShort) := LongestAndShortest(t.limits);
    var (sLong, sShort) := LongestAndShortest(s.limits);
    var tCredits := if t.id in credits then credits[t.id] else Credits(false, 0);
    var sCredits := if s.id in credits then credits[s.id] else Credits(false, 0);
    var tUrgency, sUrgency := Urgency(now, tLong, tCredits), Urgency(now, sLong, sCredits);
    var tShortUsed := if tShort.Some? then tShort.value.usedPercent else 1000.0;
    var sShortUsed := if sShort.Some? then sShort.value.usedPercent else 1000.0;
    var tLongUsed := if tLong.Some? then tLong.value.usedPercent else 1000.0;
    var sLongUsed := if sLong.Some? then sLong.value.usedPercent else 1000.0;
    if tUrgency != sUrgency then tUrgency > sUrgency
    else if tShortUsed != sShortUsed then tShortUsed < sShortUsed
    else if tLongUsed != sLongUsed then tLongUsed < sLongUsed
    else if t.threadCount != s.threadCount then t.threadCount < s.threadCount
    else Find(accounts, t.id).value.createdAt < Find(accounts, s.id).value.createdAt
  }

  lemma BetterOutranks(t: Snapshot, s: Snapshot, d: Candidate, c: Candidate, excluded: set<string>,
                       accounts: seq<Account>, credits: map<string, Credits>, now: int)
    requires Yields(t, excluded, accounts, d) && Yields(s, excluded, accounts, c)
    requires Outranks(t, s, accounts, credits, now)
    ensures Better(Score(d, credits, now), Score(c, credits, now))
  {
    hide Urgency, LongestAndShortest, HasCapacity;
    assert d.account.id == t.id && c.account.id == s.id;
  }

  /** The choice on snapshots: when the key differences between the candidates are zero or above tolerance, the chosen
      account is one that no qualifying snapshot outranks. */
  lemma ChosenIsBest(snapshots: seq<Snapshot>, excluded: set<string>, accounts: seq<Account>,
                     credits: map<string, Credits>, now: int)
    requires Choose(snapshots, excluded, accounts, credits, now).Some?
    requires var scored := Scored(Candidates(snapshots, excluded, accounts), credits, now);
      forall l, r :: l in scored && r in scored ==> Separated(l, r)
    ensures exists s :: (
      && s in snapshots && Qualifies(s, excluded, accounts)
      && Choose(snapshots, excluded, accounts, credits, now) == Find(accounts, s.id)
      && forall t :: t in snapshots && Qualifies(t, excluded, accounts) ==> !Outranks(t, s, accounts, credits, now))
  {
    hide Urgency, Before, Better, Separated, Candidates, Yields, HasCapacity, Outranks, Score;
    var cs := Candidates(snapshots, excluded, accounts);
    var c := ChosenCandidate(snapshots, excluded, accounts, credits, now);
    WinnerBestWhenSeparated(Scored(cs, credits, now));
    CandidatesSound(snapshots, excluded, accounts);
    CandidatesComplete(snapshots, excluded, accounts);
    var s :| s in snapshots && Yields(s, excluded, accounts, c);
    YieldsQualifies(s, excluded, accounts, c);
    forall t | t in snapshots && Qualifies(t, excluded, accounts) ensures !Outranks(t, s, accounts, credits, now) {
      var d :| d in cs && Yields(t, excluded, accounts, d);
      var i :| 0 <= i < |cs| && cs[i] == d;
      assert Scored(cs, credits, now)[i] == Score(d, credits, now);
      if Outranks(t, s, accounts, credits, now) {
        BetterOutranks(t, s, d, c, excluded, accounts, credits, now);
      }
    }
  }

  lemma YieldsQualifies(s: Snapshot, excluded: set<string>, accounts: seq<Account>, c: Candidate)
    requires Yields(s, excluded, accounts, c)
    ensures Qualifies(s, excluded, accounts) && Find(accounts, s.id) == Some(c.account)
  {
  }

  lemma {:induction false} UnknownsTrail(ranked: seq<Candidate>, k: nat)
    requires StableSort.NeighboursOrdered(ranked, Before) && k < |ranked|
    requires forall c :: c in ranked ==> c.urgency == -1.0 || c.urgency >= 0.0
    requires ranked[0].urgency == -1.0
    ensures ranked[k].urgency == -1.0
  {
    if k > 0 {
      UnknownsTrail(ranked, k - 1);
      assert !Before(ranked[k - 1 + 1], ranked[k - 1]);
      assert ranked[k] in ranked;
    }
  }

  /** An account with an unknown window is chosen only when every candidate's window is unknown. */
  lemma UnknownChosenLast(cs: seq<Candidate>, credits: map<string, Credits>, now: int)
    requires cs != [] && Ranked(Scored(cs, credits, now))[0].weekly.None?
    ensures forall c :: c in cs ==> c.weekly.None?
  {
    hide Before, Urgency;
    var scored := Scored(cs, credits, now);
    var ranked := Ranked(scored);
    BeforeAsymmetric();
    StableSort.SortOrdersNeighbours(scored, Before);
    StableSort.SortMembers(scored, Before);
    forall c | c in ranked
      ensures (c.weekly.None? ==> c.urgency == -1.0) && (c.weekly.Some? ==> c.urgency >= 0.0)
    {
      assert c in scored;
      UrgencyRange(now, c.weekly, CreditsFor(credits, c.account.id));
    }
    assert ranked[0] in ranked;
    forall c | c in cs ensures c.weekly.None? {
      var i :| 0 <= i < |cs| && cs[i] == c;
      assert scored[i] in ranked;
      var k :| 0 <= k < |ranked| && ranked[k] == scored[i];
      UnknownsTrail(ranked, k);
    }
  }

  // ---- Pooled limits ----

  function CountPresent(ws: seq<Option<Window>>): nat {
    if ws == [] then 0 else CountPresent(ws[..|ws| - 1]) + (if ws[|ws| - 1].Some? then 1 else 0)
  }

  function TotalUsed(ws: seq<Option<Window>>): real {
    if ws == [] then 0.0
    else TotalUsed(ws[..|ws| - 1]) + (if ws[|ws| - 1].Some? then ws[|ws| - 1].value.usedPercent else 0.0)
  }

  /** `d` is the longest duration any window states, if one does. */
  ghost predicate IsLongestDuration(d: Option<int>, ws: seq<Option<Window>>) {
    && (forall w :: w in ws && w.Some? && w.value.durationMins.Some? ==> d.Some? && w.value.durationMins.value <= d.value)
    && (d.Some? ==> exists w :: w in ws && w.Some? && w.value.durationMins == d)
  }

  /** `r` is the earliest reset any window states, if one does. */
  ghost predicate IsEarliestReset(r: Option<int>, ws: seq<Option<Window>>) {
    && (forall w :: w in ws && w.Some? && w.value.resetsAt.Some? ==> r.Some? && r.value <= w.value.resetsAt.value)
    && (r.Some? ==> exists w :: w in ws && w.Some? && w.value.resetsAt == r)
  }

  /** `average` is the mean usage of the windows present, with their longest duration and earliest reset. */
  ghost predicate IsAverage(average: Option<Window>, ws: seq<Option<Window>>) {
    && (average.None? <==> forall w :: w in ws ==> w.None?)
    && (average.Some? ==>
          && CountPresent(ws) > 0
          && average.value.usedPercent == TotalUsed(ws) / CountPresent(ws) as real
          && IsLongestDuration(average.value.durationMins, ws)
          && IsEarliestReset(average.value.resetsAt, ws))
  }

  function LongestDuration(ws: seq<Option<Window>>): Option<int> {
    if ws == [] then None
    else
      var d, w := LongestDuration(ws[..|ws| - 1]), ws[|ws| - 1];
      if w.Some? && w.value.durationMins.Some? && (d.None? || w.value.durationMins.value > d.value)
      then w.value.durationMins else d
  }

  function EarliestReset(ws: seq<Option<Window>>): Option<int> {
    if ws == [] then None
    else
      var r, w := EarliestReset(ws[..|ws| - 1]), ws[|ws| - 1];
      if w.Some? && w.value.resetsAt.Some? && (r.None? || w.value.resetsAt.value < r.value)
      then w.value.resetsAt else r
  }

  lemma {:induction false} LongestDurationIs(ws: seq<Option<Window>>)
    ensures IsLongestDuration(LongestDuration(ws), ws)
  {
    if ws != [] {
      LongestDurationIs(ws[..|ws| - 1]);
      assert ws == ws[..|ws| - 1] + [ws[|ws| - 1]];
      assert ws[|ws| - 1] in ws;
    }
  }

  lemma {:induction false} EarliestResetIs(ws: seq<Option<Window>>)
    ensures IsEarliestReset(EarliestReset(ws), ws)
  {
    if ws != [] {
      EarliestResetIs(ws[..|ws| - 1]);
      assert ws == ws[..|ws| - 1] + [ws[|ws| - 1]];
      assert ws[|ws| - 1] in ws;
    }
  }

  lemma {:induction false} NonePresentIff(ws: seq<Option<Window>>)
    ensures CountPresent(ws) == 0 <==> forall w :: w in ws ==> w.None?
  {
    if ws != [] {
      NonePresentIff(ws[..|ws| - 1]);
      assert ws == ws[..|ws| - 1] + [ws[|ws| - 1]];
      assert ws[|ws| - 1] in ws;
    }
  }

  method AverageRateLimitWindow(windows: seq<Option<Window>>) returns (average: Option<Window>)
    ensures IsAverage(average, windows)
  {
    hide IsLongestDuration, IsEarliestReset;
    LongestDurationIs(windows);
    EarliestResetIs(windows);
    NonePresentIff(windows);
    var used, count := 0.0, 0;
    var longestDuration: Option<int>, earliestReset: Option<int> := None, None;
    for i := 0 to |windows|
      invariant used == TotalUsed(windows[..i]) && count == CountPresent(windows[..i])
      invariant longestDuration == LongestDuration(windows[..i])
      invariant earliestReset == EarliestReset(windows[..i])
    {
      var window := windows[i];
      assert windows[..i + 1][..i] == windows[..i];
      if window.None? {
        continue;
      }
      used := used + window.value.usedPercent;
      count := count + 1;
      var duration, reset := window.value.durationMins, window.value.resetsAt;
      if duration.Some? && (longestDuration.None? || duration.value > longestDuration.value) {
        longestDuration := duration;
      }
      if reset.Some? && (earliestReset.None? || reset.value < earliestReset.value) {
        earliestReset := reset;
      }
    }
    assert windows[..|windows|] == windows;
    if count == 0 {
      return None;
    }
    average := Some(Window(used / count as real, longestDuration, earliestReset));
  }

  lemma {:induction false} TotalWithinBounds(ws: seq<Option<Window>>, low: real, high: real)
    requires forall w :: w in ws && w.Some? ==> low <= w.value.usedPercent <= high
    ensures low * CountPresent(ws) as real <= TotalUsed(ws) <= high * CountPresent(ws) as real
  {
    if ws != [] {
      var init, last := ws[..|ws| - 1], ws[|ws| - 1];
      assert last in ws;
      TotalWithinBounds(init, low, high);
      if last.Some? {
        OneMoreWithin(low, high, TotalUsed(init), CountPresent(init) as real, last.value.usedPercent);
      }
    }
  }

  lemma OneMoreWithin(low: real, high: real, total: real, n: real, used: real)
    requires low * n <= total <= high * n && low <= used <= high
    ensures low * (n + 1.0) <= total + used <= high * (n + 1.0)
  {
  }

  lemma DivideBounds(low: real, high: real, total: real, n: real)
    requires n > 0.0 && low * n <= total <= high * n
    ensures low <= total / n <= high
  {
    assert low == low * n / n && high == high * n / n;
  }

  /** The pooled window is there when any window is. Its usage times the number of windows is their total usage, so it
      lies between the least and the most used one; no window lasts longer, and none resets earlier. */
  lemma AverageWithinBounds(average: Option<Window>, ws: seq<Option<Window>>, low: real, high: real)
    requires IsAverage(average, ws)
    requires forall w :: w in ws && w.Some? ==> low <= w.value.usedPercent <= high
    ensures average.Some? <==> exists w :: w in ws && w.Some?
    ensures average.Some? ==>
      && low <= average.value.usedPercent <= high
      && average.value.usedPercent * CountPresent(ws) as real == TotalUsed(ws)
      && forall w :: w in ws && w.Some? ==>
           && (w.value.durationMins.Some? ==>
                 average.value.durationMins.Some? && w.value.durationMins.value <= average.value.durationMins.value)
           && (w.value.resetsAt.Some? ==>
                 average.value.resetsAt.Some? && average.value.resetsAt.value <= w.value.resetsAt.value)
  {
    hide TotalUsed, CountPresent;
    TotalWithinBounds(ws, low, high);
    if average.Some? {
      MeanWithin(low, high, TotalUsed(ws), CountPresent(ws) as real, average.value.usedPercent);
    }
  }

  lemma MeanWithin(low: real, high: real, total: real, n: real, mean: real)
    requires n > 0.0 && low * n <= total <= high * n && mean == total / n
    ensures low <= mean <= high && mean * n == total
  {
    DivideBounds(low, high, total, n);
    DivideTimes(total, n);
  }

  /** The windows one role contributes to the pool, in snapshot order. */
  function PooledWindows(snapshots: seq<Snapshot>, pick: Limits -> Option<Window>): seq<Option<Window>> {
    if snapshots == [] then []
    else
      var s := snapshots[|snapshots| - 1];
      PooledWindows(snapshots[..|snapshots| - 1], pick) +
      (if Eligible(s) && s.limits.Some? then [pick(s.limits.value)] else [])
  }

  /** The pool takes every eligible snapshot with limits, and no other. */
  lemma {:induction false} PoolsJoin(a: seq<Snapshot>, b: seq<Snapshot>, pick: Limits -> Option<Window>)
    ensures PooledWindows(a + b, pick) == PooledWindows(a, pick) + PooledWindows(b, pick)
  {
    if b == [] {
      assert a + b == a;
    } else {
      PoolsJoin(a, b[..|b| - 1], pick);
      assert (a + b)[..|a + b| - 1] == a + b[..|b| - 1];
    }
  }

  lemma PoolOfOne(s: Snapshot, pick: Limits -> Option<Window>)
    ensures PooledWindows([s], pick) ==
            if s.enabled && s.connected && s.authType == "chatgpt" && s.limits.Some? then [pick(s.limits.value)] else []
  {
    assert [s][..0] == [];
  }

  /** An average weighs every present window once. */
  lemma {:induction false} AveragesJoin(a: seq<Option<Window>>, b: seq<Option<Window>>)
    ensures TotalUsed(a + b) == TotalUsed(a) + TotalUsed(b) && CountPresent(a + b) == CountPresent(a) + CountPresent(b)
    ensures forall w: Window :: TotalUsed([Some(w)]) == w.usedPercent && CountPresent([Some(w)]) == 1
    ensures TotalUsed([None]) == 0.0 && CountPresent([None]) == 0
  {
    if b == [] {
      assert a + b == a;
    } else {
      AveragesJoin(a, b[..|b| - 1]);
      assert (a + b)[..|a + b| - 1] == a + b[..|b| - 1];
    }
  }

  datatype Pooled = Pooled(primary: Option<Window>, secondary: Option<Window>, reached: bool)

  predicate AnyEligible(snapshots: seq<Snapshot>) {
    snapshots != [] && (AnyEligible(snapshots[..|snapshots| - 1]) || Eligible(snapshots[|snapshots| - 1]))
  }

  predicate AnyCapacity(snapshots: seq<Snapshot>) {
    snapshots != [] && (AnyCapacity(snapshots[..|snapshots| - 1]) || HasCapacity(snapshots[|snapshots| - 1]))
  }

  lemma {:induction false} AnyEligibleIff(snapshots: seq<Snapshot>)
    ensures AnyEligible(snapshots) <==> exists s :: s in snapshots && Eligible(s)
  {
    hide Eligible;
    if snapshots != [] {
      AnyEligibleIff(snapshots[..|snapshots| - 1]);
      assert snapshots == snapshots[..|snapshots| - 1] + [snapshots[|snapshots| - 1]];
    }
  }

  lemma {:induction false} AnyCapacityIff(snapshots: seq<Snapshot>)
    ensures AnyCapacity(snapshots) <==> exists s :: s in snapshots && HasCapacity(s)
  {
    hide HasCapacity;
    if snapshots != [] {
      AnyCapacityIff(snapshots[..|snapshots| - 1]);
      assert snapshots == snapshots[..|snapshots| - 1] + [snapshots[|snapshots| - 1]];
    }
  }

  /** aggregateRateLimits; None is the error "no enabled ChatGPT subscription is connected". */
  method AggregateRateLimits(snapshots: seq<Snapshot>) returns (pooled: Option<Pooled>)
    ensures pooled.Some? <==> exists s :: s in snapshots && Eligible(s)
    ensures pooled.Some? ==>
      && IsAverage(pooled.value.primary, PooledWindows(snapshots, (l: Limits) => l.primary))
      && IsAverage(pooled.value.secondary, PooledWindows(snapshots, (l: Limits) => l.secondary))
      && (pooled.value.reached <==> forall s :: s in snapshots ==> !HasCapacity(s))
  {
    hide LongestAndShortest;
    AnyEligibleIff(snapshots);
    AnyCapacityIff(snapshots);
    var primary: seq<Option<Window>>, secondary: seq<Option<Window>> := [], [];
    var hasSubscription, hasCapacity := false, false;
    for i := 0 to |snapshots|
      invariant primary == PooledWindows(snapshots[..i], (l: Limits) => l.primary)
      invariant secondary == PooledWindows(snapshots[..i], (l: Limits) => l.secondary)
      invariant hasSubscription == AnyEligible(snapshots[..i])
      invariant hasCapacity == AnyCapacity(snapshots[..i])
    {
      var snapshot := snapshots[i];
      assert snapshots[..i + 1][..i] == snapshots[..i];
      if !snapshot.enabled || !snapshot.connected || snapshot.authType != "chatgpt" {
        continue;
      }
      hasSubscription := true;
      if snapshot.limits.Some? {
        primary := primary + [snapshot.limits.value.primary];
        secondary := secondary + [snapshot.limits.value.secondary];
      }
      var (weekly, short) := LongestAndShortest(snapshot.limits);
      if weekly.None? || weekly.value.usedPercent < 100.0 {
        hasCapacity := true;
      }
    }
    assert snapshots[..|snapshots|] == snapshots;
    if !hasSubscription {
      return None;
    }
    var p := AverageRateLimitWindow(primary);
    var q := AverageRateLimitWindow(secondary);
    pooled := Some(Pooled(p, q, !hasCapacity));
  }

  /** The pool reports depletion exactly when an unrestricted choice fails. */
  lemma DepletionIffNoChoice(snapshots: seq<Snapshot>, accounts: seq<Account>, credits: map<string, Credits>, now: int)
    requires forall s :: s in snapshots ==> Find(accounts, s.id).Some?
    ensures Choose(snapshots, {}, accounts, credits, now).None? <==> forall s :: s in snapshots ==> !HasCapacity(s)
  {
    hide HasCapacity, Choose;
    ChoiceFailsIff(snapshots, {}, accounts, credits, now);
  }
}
