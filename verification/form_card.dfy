/**
 * The status badge on a dashboard form card: derived from the form's
 * settings, its response count and the current time.
 */
module StatusBadge {
  import opened Options

  /**
   * The settings the card reads. Every property may be missing; the status
   * is typed as one of three names but arrives as text. The expiry date is
   * the stored text, whose parsing is a parameter.
   */
  datatype CardSettings = CardSettings(
    status: Option<string>,
    isActive: Option<bool>,
    expiryDate: Option<string>,
    maxResponses: Option<int>)

  datatype Card = Card(settings: Option<CardSettings>, responses: int)

  /** `new Date(text)`: a time value, or `None` for an invalid date (whose comparisons are all false). */
  type DateParser = string -> Option<int>

  /** The glow classes: green for Live, amber for Draft, red for a closed state, none otherwise. */
  datatype Tone = Green | Amber | Red | Plain

  datatype Badge = Badge(text: string, tone: Tone)

  function SettingsOf(c: Card): CardSettings {
    c.settings.GetOr(CardSettings(None, None, None, None))
  }

  /** `settings?.isActive ?? true`. */
  predicate IsActive(c: Card) {
    SettingsOf(c).isActive.GetOr(true)
  }

  /** The expiry date is set (non-empty) and strictly before now. */
  predicate IsExpired(c: Card, parse: DateParser, now: int) {
    match SettingsOf(c).expiryDate
    case None => false
    case Some(e) => e != "" && parse(e).Some? && parse(e).value < now
  }

  /** `settings?.maxResponses || 0`: a missing or zero limit is no limit. */
  function Limit(c: Card): int {
    SettingsOf(c).maxResponses.GetOr(0)
  }

  predicate IsLimitReached(c: Card) {
    Limit(c) > 0 && c.responses >= Limit(c)
  }

  /** `settings?.status || 'Draft'`. */
  function StatusText(c: Card): (r: string)
    ensures SettingsOf(c).status.None? || SettingsOf(c).status.value == "" ==> r == "Draft"
    ensures SettingsOf(c).status.Some? && SettingsOf(c).status.value != "" ==> r == SettingsOf(c).status.value
  {
    match SettingsOf(c).status
    case Some(s) => if s != "" then s else "Draft"
    case None => "Draft"
  }

  /** The badge the card displays. */
  function BadgeOf(c: Card, parse: DateParser, now: int): (b: Badge)
    ensures StatusText(c) == "Live" ==> b == Badge("Live", Green)
    ensures StatusText(c) == "Draft" ==> b == Badge("Draft", Amber)
    ensures b.text == "Closed" && b.tone == Red <==>
      StatusText(c) !in ["Live", "Draft"] && (StatusText(c) == "Closed" || !IsActive(c))
    ensures b == Badge("Expired", Red) <==>
      StatusText(c) !in ["Live", "Draft", "Closed"] && IsActive(c) && IsExpired(c, parse, now)
    ensures b == Badge("Limit Reached", Red) <==>
      StatusText(c) !in ["Live", "Draft", "Closed"] && IsActive(c) && !IsExpired(c, parse, now) && IsLimitReached(c)
    ensures b.tone == Plain <==>
      StatusText(c) !in ["Live", "Draft", "Closed"] && IsActive(c) && !IsExpired(c, parse, now) && !IsLimitReached(c)
    ensures b.tone == Plain ==> b.text == StatusText(c)
  {
    var status := StatusText(c);
    var active := IsActive(c);
    var expired := IsExpired(c, parse, now);
    var limited := IsLimitReached(c);
    if status == "Live" then Badge(status, Green)
    else if status == "Draft" then Badge(status, Amber)
    else if status == "Closed" || !active || expired || limited then
      Badge(if status == "Closed" || !active then "Closed" else if expired then "Expired" else "Limit Reached", Red)
    else Badge(status, Plain)
  }

  /** A card whose status is one of the three stored names shows one of those three, never Expired or Limit Reached. */
  lemma EnumStatusStaysInEnum(c: Card, parse: DateParser, now: int)
    requires SettingsOf(c).status.None? || SettingsOf(c).status.value in ["Draft", "Live", "Closed"]
    ensures BadgeOf(c, parse, now).text in ["Draft", "Live", "Closed"]
    ensures BadgeOf(c, parse, now).text == StatusText(c)
  {
  }

  /** A Live or Draft badge is the same whatever the activity flag, the expiry and the response count. */
  lemma LiveAndDraftIgnoreLimits(c: Card, c': Card, parse: DateParser, now: int, now': int)
    requires StatusText(c) in ["Live", "Draft"] && StatusText(c') == StatusText(c)
    ensures BadgeOf(c, parse, now) == BadgeOf(c', parse, now')
  {
  }

  /** Without settings the card is active, never expired and unlimited, so it shows Draft. */
  lemma NoSettingsIsDraft(responses: int, parse: DateParser, now: int)
    ensures IsActive(Card(None, responses))
    ensures !IsExpired(Card(None, responses), parse, now)
    ensures !IsLimitReached(Card(None, responses))
    ensures BadgeOf(Card(None, responses), parse, now) == Badge("Draft", Amber)
  {
  }

  /** A zero or missing limit never counts as reached, however many responses there are. */
  lemma ZeroLimitIsUnlimited(c: Card)
    requires SettingsOf(c).maxResponses.None? || SettingsOf(c).maxResponses.value <= 0
    ensures !IsLimitReached(c)
  {
  }

  /** A limit of `m > 0` is reached exactly from the `m`-th response on. */
  lemma LimitReachedAt(c: Card, m: int)
    requires SettingsOf(c).maxResponses == Some(m) && m > 0
    ensures IsLimitReached(c) <==> c.responses >= m
  {
  }
}
