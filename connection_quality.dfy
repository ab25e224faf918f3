/**
 * The connection badge of the frontend: `getConnectionQuality` turns the
 * device's online flag, the server status and the last ping (milliseconds,
 * or null before one has been measured) into a badge action and label.
 */
module ConnectionQuality {
  import opened Wrappers

  datatype ServerStatus = Connected | Disconnected | Checking

  /** The badge colour. */
  datatype Action = Success | Warning | Error | Muted

  /** The label with the icon that goes with it. */
  datatype Label = Offline | CheckingLabel | Good | Weak | Bad | Poor

  datatype Quality = Quality(action: Action, text: Label)

  function LabelText(l: Label): string {
    match l
    case Offline => "Offline"
    case CheckingLabel => "Checking..."
    case Good => "Good"
    case Weak => "Weak"
    case Bad => "Bad"
    case Poor => "Poor"
  }

  /**
   * `getConnectionQuality`: offline first, then checking, then the ping
   * thresholds in milliseconds (below 300 good, below 750 weak, below 1500
   * bad, poor from there on).
   */
  function GetConnectionQuality(ping: Option<real>, isOnline: bool, serverStatus: ServerStatus): (q: Quality)
    ensures !isOnline || serverStatus == Disconnected <==> q == Quality(Error, Offline)
    ensures (isOnline && serverStatus != Disconnected && (serverStatus == Checking || ping == None))
              <==> q == Quality(Muted, CheckingLabel)
    ensures q.text == Good <==> isOnline && serverStatus.Connected? && ping.Some? && ping.value < 300.0
    ensures q.text == Weak <==> isOnline && serverStatus.Connected? && ping.Some? && 300.0 <= ping.value < 750.0
    ensures q.text == Bad <==> isOnline && serverStatus.Connected? && ping.Some? && 750.0 <= ping.value < 1500.0
    ensures q.text == Poor <==> isOnline && serverStatus.Connected? && ping.Some? && 1500.0 <= ping.value
    ensures q.action == Success <==> q.text == Good
    ensures q.action == Warning <==> q.text == Weak
    ensures q.action == Error <==> q.text in {Offline, Bad, Poor}
  {
    if !isOnline || serverStatus == Disconnected then Quality(Error, Offline)
    else if serverStatus == Checking || ping == None then Quality(Muted, CheckingLabel)
    else if ping.value < 300.0 then Quality(Success, Good)
    else if ping.value < 750.0 then Quality(Warning, Weak)
    else if ping.value < 1500.0 then Quality(Error, Bad)
    else Quality(Error, Poor)
  }

  /** How good a ping label is: Good 3, Weak 2, Bad 1, Poor 0. */
  function Rank(l: Label): nat {
    match l
    case Good => 3
    case Weak => 2
    case Bad => 1
    case _ => 0
  }

  /** A longer ping never gives a better label. */
  lemma SlowerIsNoBetter(p: real, p': real, isOnline: bool, serverStatus: ServerStatus)
    requires p <= p'
    ensures Rank(GetConnectionQuality(Some(p'), isOnline, serverStatus).text)
              <= Rank(GetConnectionQuality(Some(p), isOnline, serverStatus).text)
  {
  }

  /** Being offline or disconnected hides the ping and the checking state. */
  lemma OfflineTakesPrecedence(ping: Option<real>, serverStatus: ServerStatus)
    ensures GetConnectionQuality(ping, false, serverStatus) == Quality(Error, Offline)
    ensures GetConnectionQuality(ping, true, Disconnected) == Quality(Error, Offline)
  {
  }
}
