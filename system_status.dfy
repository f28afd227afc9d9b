/** `SystemStatusService`: the status snapshot built from the actuator's
    "db" health contributor, the configured OpenAI key and the uptime. */
module SystemStatus {
  import opened Text

  /** The actuator's built-in status codes. */
  datatype HealthStatus = UP | DOWN | OUT_OF_SERVICE | UNKNOWN

  /** A health contributor: a single indicator, a composite of named
      children (one per data source), or some other contributor kind. */
  datatype Contributor =
    | Indicator(status: HealthStatus)
    | Composite(children: seq<Contributor>)
    | OtherContributor

  /** A composite child counts against the database only when it is an
      indicator whose status is not UP; other kinds are skipped. */
  predicate ChildHealthy(c: Contributor) {
    !c.Indicator? || c.status == UP
  }

  /** The verdict `isDbUp` reaches on the contributor registered as "db". */
  predicate DbUp(registry: map<string, Contributor>) {
    && "db" in registry
    && match registry["db"]
       case Indicator(s) => s == UP
       case Composite(children) => forall i :: 0 <= i < |children| ==> ChildHealthy(children[i])
       case OtherContributor => false
  }

  const KEY_PROPERTY := "spring.ai.openai.api-key"
  const KEY_PREFIX := "sk-"
  const MISSING := "MISSING"
  const INVALID_FORMAT := "INVALID_FORMAT"
  const PRESENT := "PRESENT"

  /** `env.getProperty(name, "")`. */
  function Property(env: map<string, string>, name: string): (v: string)
    ensures name in env ==> v == env[name]
    ensures name !in env ==> v == ""
  {
    if name in env then env[name] else ""
  }

  /** The openaiKey component: missing without text, well-formed only with
      the "sk-" prefix. */
  function KeyStatus(key: string): (r: string)
    ensures r == MISSING <==> !HasText(key)
    ensures r == PRESENT <==> HasText(key) && StartsWith(key, KEY_PREFIX)
    ensures r == INVALID_FORMAT <==> HasText(key) && !StartsWith(key, KEY_PREFIX)
  {
    if HasText(key) then (if StartsWith(key, KEY_PREFIX) then PRESENT else INVALID_FORMAT)
    else MISSING
  }

  /** Milliseconds to whole seconds with Java's `long` division, which
      truncates toward zero. */
  function MillisToSeconds(ms: int): (sec: int)
    ensures ms >= 0 ==> sec >= 0 && sec * 1000 <= ms < sec * 1000 + 1000
    ensures ms < 0 ==> sec <= 0 && sec * 1000 - 1000 < ms <= sec * 1000
  {
    if ms >= 0 then ms / 1000 else -((-ms) / 1000)
  }

  datatype VersionInfo = VersionInfo(commit: string, buildTag: string)

  datatype SystemStatusDto = SystemStatusDto(
    overall: string,
    app: string,
    uptimeSeconds: int,
    version: VersionInfo,
    timestamp: int,
    components: map<string, string>)

  class SystemStatusService {
    /** `healthRegistry`, by contributor name. */
    const healthRegistry: map<string, Contributor>
    /** The resolved environment properties. */
    const env: map<string, string>
    /** The clock in milliseconds when the service was built. */
    const startTime: int
    const commit: string
    const buildTag: string

    constructor (healthRegistry: map<string, Contributor>, env: map<string, string>,
                 startTime: int, commit: string, buildTag: string)
      ensures this.healthRegistry == healthRegistry && this.env == env
      ensures this.startTime == startTime && this.commit == commit && this.buildTag == buildTag
    {
      this.healthRegistry := healthRegistry;
      this.env := env;
      this.startTime := startTime;
      this.commit := commit;
      this.buildTag := buildTag;
    }

    /** Looks up "db" and walks a composite's children in order, returning
        false at the first indicator that is not UP. */
    method IsDbUp() returns (up: bool)
      ensures up <==> DbUp(healthRegistry)
    {
      if "db" !in healthRegistry {
        return false;
      }
      match healthRegistry["db"]
      case Indicator(s) =>
        return s == UP;
      case Composite(children) =>
        var i := 0;
        while i < |children|
          invariant 0 <= i <= |children|
          invariant forall j :: 0 <= j < i ==> ChildHealthy(children[j])
        {
          if children[i].Indicator? && children[i].status != UP {
            return false;
          }
          i := i + 1;
        }
        return true;
      case OtherContributor =>
        return false;
    }

    /** The snapshot at clock `now` (milliseconds) and instant `timestamp`. */
    method GetStatus(now: int, timestamp: int) returns (dto: SystemStatusDto)
      ensures var key := Property(env, KEY_PROPERTY);
              && dto.components.Keys == {"db", "openaiKey"}
              && (dto.components["db"] == "UP" <==> DbUp(healthRegistry))
              && (dto.components["db"] == "DOWN" <==> !DbUp(healthRegistry))
              && dto.components["openaiKey"] == KeyStatus(key)
              && (dto.overall == "UP" <==> DbUp(healthRegistry) && HasText(key) && StartsWith(key, KEY_PREFIX))
              && (dto.overall == "DOWN" <==> dto.overall != "UP")
      ensures dto.app == "UP"
      ensures dto.uptimeSeconds == MillisToSeconds(now - startTime)
      ensures dto.version == VersionInfo(commit, buildTag) && dto.timestamp == timestamp
    {
      var dbUp := IsDbUp();
      var key := Property(env, KEY_PROPERTY);
      var keyPresent := HasText(key);
      var keyLooksGood := keyPresent && StartsWith(key, KEY_PREFIX);
      var components := map["db" := if dbUp then "UP" else "DOWN",
                            "openaiKey" := if keyPresent then (if keyLooksGood then PRESENT else INVALID_FORMAT) else MISSING];
      dto := SystemStatusDto(
        if dbUp && keyLooksGood then "UP" else "DOWN",
        "UP",
        MillisToSeconds(now - startTime),
        VersionInfo(commit, buildTag),
        timestamp,
        components);
    }
  }

  /** The overall status is UP exactly when both components report their
      good value. */
  lemma OverallFollowsComponents(dto: SystemStatusDto, registry: map<string, Contributor>, key: string)
    requires dto.components.Keys == {"db", "openaiKey"}
    requires dto.components["db"] == "UP" <==> DbUp(registry)
    requires dto.components["openaiKey"] == KeyStatus(key)
    requires dto.overall == "UP" <==> DbUp(registry) && HasText(key) && StartsWith(key, KEY_PREFIX)
    ensures dto.overall == "UP" <==> dto.components["db"] == "UP" && dto.components["openaiKey"] == PRESENT
  {
  }

  /** A key with the "sk-" prefix always has text, so the prefix alone
      decides between PRESENT and INVALID_FORMAT. */
  lemma PrefixedKeyHasText(key: string)
    requires StartsWith(key, KEY_PREFIX)
    ensures HasText(key) && KeyStatus(key) == PRESENT
  {
    assert key[0] == 's';
  }

  /** A missing property reads as "" and is MISSING. */
  lemma AbsentKeyIsMissing(env: map<string, string>)
    requires KEY_PROPERTY !in env
    ensures KeyStatus(Property(env, KEY_PROPERTY)) == MISSING
  {
  }

  /** No "db" contributor, or one of an unknown kind, counts as down. */
  lemma NoDatabaseIsDown(registry: map<string, Contributor>)
    requires "db" !in registry || registry["db"].OtherContributor?
    ensures !DbUp(registry)
  {
  }

  /** An empty composite is up, and a composite is down exactly when some
      child indicator reports a status other than UP. */
  lemma CompositeDownIff(registry: map<string, Contributor>, children: seq<Contributor>)
    requires "db" in registry && registry["db"] == Composite(children)
    ensures children == [] ==> DbUp(registry)
    ensures !DbUp(registry) <==> exists i :: 0 <= i < |children| && children[i].Indicator? && children[i].status != UP
  {
  }

  /** Uptime is whole seconds, rounded toward zero, so just under a second
      after start it is still 0. */
  lemma UptimeBelowOneSecond(start: int, now: int)
    requires start <= now < start + 1000
    ensures MillisToSeconds(now - start) == 0
  {
  }
}
