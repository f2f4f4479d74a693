/** components/StudentCard.tsx: the tier shown for a student's points and
    the trend and colour shown for the attendance percentage. */
module StudentCard {

  /** The three tiers `getLevel` can return, lowest first by `Rank`. */
  datatype Level = Bronce | Plata | Oro
  {
    function Name(): string
    {
      match this
      case Oro => "Oro"
      case Plata => "Plata"
      case Bronce => "Bronce"
    }

    /** The Tailwind class the tier name is drawn with. */
    function Color(): string
    {
      match this
      case Oro => "text-yellow-500"
      case Plata => "text-gray-400"
      case Bronce => "text-amber-700"
    }

    function Rank(): nat
    {
      match this
      case Bronce => 0
      case Plata => 1
      case Oro => 2
    }
  }

  const ORO_MIN: int := 1000
  const PLATA_MIN: int := 500

  /** `getLevel(puntos)` */
  function GetLevel(puntos: int): (level: Level)
    ensures level == Oro <==> puntos >= ORO_MIN
    ensures level == Plata <==> PLATA_MIN <= puntos < ORO_MIN
    ensures level == Bronce <==> puntos < PLATA_MIN
  {
    if puntos >= ORO_MIN then Oro
    else if puntos >= PLATA_MIN then Plata
    else Bronce
  }

  /** More points never give a lower tier. */
  lemma GetLevelMonotone(a: int, b: int)
    requires a <= b
    ensures GetLevel(a).Rank() <= GetLevel(b).Rank()
  {
  }

  /** Each tier has its own name and its own colour. */
  lemma LevelNamesDistinct(x: Level, y: Level)
    requires x != y
    ensures x.Name() != y.Name() && x.Color() != y.Color()
  {
  }

  datatype Trend = Up | Stable | Down

  const UP_MIN: int := 90
  const STABLE_MIN: int := 70

  /** `asistencia >= 90 ? 'up' : asistencia >= 70 ? 'stable' : 'down'` */
  function TrendOf(asistencia: int): (trend: Trend)
    ensures trend == Up <==> asistencia >= UP_MIN
    ensures trend == Stable <==> STABLE_MIN <= asistencia < UP_MIN
    ensures trend == Down <==> asistencia < STABLE_MIN
  {
    if asistencia >= UP_MIN then Up
    else if asistencia >= STABLE_MIN then Stable
    else Down
  }

  /** A higher percentage never gives a worse trend. */
  lemma TrendMonotone(a: int, b: int)
    requires a <= b
    ensures TrendOf(a) == Up ==> TrendOf(b) == Up
    ensures TrendOf(b) == Down ==> TrendOf(a) == Down
  {
  }

  /** The class the percentage is drawn with, chosen by its own thresholds. */
  function AttendanceColor(asistencia: int): (color: string)
    ensures color == "text-green-600" <==> asistencia >= 90
    ensures color == "text-yellow-600" <==> 70 <= asistencia < 90
    ensures color == "text-red-600" <==> asistencia < 70
  {
    if asistencia >= 90 then "text-green-600"
    else if asistencia >= 70 then "text-yellow-600"
    else "text-red-600"
  }

  /** The colour each trend goes with. */
  function TrendColor(trend: Trend): string
  {
    match trend
    case Up => "text-green-600"
    case Stable => "text-yellow-600"
    case Down => "text-red-600"
  }

  /** The colour and the trend use the same thresholds: the colour is the
      trend's colour for every percentage. */
  lemma ColorAgreesWithTrend(asistencia: int)
    ensures AttendanceColor(asistencia) == TrendColor(TrendOf(asistencia))
  {
  }

  /** The rising-trend icon is drawn exactly for a percentage of 90 or more. */
  function ShowsTrendIcon(asistencia: int): (shown: bool)
    ensures shown <==> asistencia >= UP_MIN
  {
    TrendOf(asistencia) == Up
  }
}
