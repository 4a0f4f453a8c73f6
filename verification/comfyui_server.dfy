/**
 * ComfyuiServer: a registered ComfyUI instance, its partial updates and its
 * health flag.
 */
module ComfyuiServers {
  import opened Wrappers
  import opened JavaStrings

  /** The health statuses; only HEALTHY is named by the entity. */
  datatype HealthStatus = Healthy | OtherHealth(name: string)

  datatype Server = Server(
    serverKey: Option<string>,
    serverName: Option<string>,
    description: Option<string>,
    baseUrl: Option<string>,
    authMode: Option<string>,
    apiKey: Option<string>,
    timeoutSeconds: Option<int>,
    maxRetries: Option<int>,
    isEnabled: Option<bool>,
    healthStatus: Option<HealthStatus>,
    lastHealthCheckTime: Option<int>)

  /** updateBasicInfo: a blank name and a null description leave the old values. */
  function UpdateBasicInfo(s: Server, serverName: Option<string>, description: Option<string>): (r: Server)
    ensures r.serverName == (if serverName.Some? && Trim(serverName.value) != "" then serverName else s.serverName)
    ensures r.description == (if description.Some? then description else s.description)
    ensures r.(serverName := s.serverName, description := s.description) == s
  {
    var named := if serverName.Some? && Trim(serverName.value) != "" then s.(serverName := serverName) else s;
    if description.Some? then named.(description := description) else named
  }

  /**
   * updateConnectionConfig: a blank URL, a timeout that is not positive and
   * a negative retry count are ignored; the auth mode and key are always
   * replaced, null included.
   */
  function UpdateConnectionConfig(s: Server, baseUrl: Option<string>, authMode: Option<string>, apiKey: Option<string>,
                                  timeoutSeconds: Option<int>, maxRetries: Option<int>): (r: Server)
    ensures r.baseUrl == (if baseUrl.Some? && Trim(baseUrl.value) != "" then baseUrl else s.baseUrl)
    ensures r.authMode == authMode && r.apiKey == apiKey
    ensures r.timeoutSeconds == (if timeoutSeconds.Some? && timeoutSeconds.value > 0 then timeoutSeconds else s.timeoutSeconds)
    ensures r.maxRetries == (if maxRetries.Some? && maxRetries.value >= 0 then maxRetries else s.maxRetries)
    ensures r.(baseUrl := s.baseUrl, authMode := s.authMode, apiKey := s.apiKey,
               timeoutSeconds := s.timeoutSeconds, maxRetries := s.maxRetries) == s
  {
    var s1 := if baseUrl.Some? && Trim(baseUrl.value) != "" then s.(baseUrl := baseUrl) else s;
    var s2 := s1.(authMode := authMode, apiKey := apiKey);
    var s3 := if timeoutSeconds.Some? && timeoutSeconds.value > 0 then s2.(timeoutSeconds := timeoutSeconds) else s2;
    if maxRetries.Some? && maxRetries.value >= 0 then s3.(maxRetries := maxRetries) else s3
  }

  /** Updating the connection twice with the same arguments is the same as once. */
  lemma UpdateConnectionIdempotent(s: Server, baseUrl: Option<string>, authMode: Option<string>, apiKey: Option<string>,
                                   timeoutSeconds: Option<int>, maxRetries: Option<int>)
    ensures var once := UpdateConnectionConfig(s, baseUrl, authMode, apiKey, timeoutSeconds, maxRetries);
      UpdateConnectionConfig(once, baseUrl, authMode, apiKey, timeoutSeconds, maxRetries) == once
  {
  }

  /** A server whose timeout is positive keeps a positive timeout through any connection update. */
  lemma PositiveTimeoutStays(s: Server, baseUrl: Option<string>, authMode: Option<string>, apiKey: Option<string>,
                             timeoutSeconds: Option<int>, maxRetries: Option<int>)
    requires s.timeoutSeconds.Some? && s.timeoutSeconds.value > 0
    ensures var r := UpdateConnectionConfig(s, baseUrl, authMode, apiKey, timeoutSeconds, maxRetries);
      r.timeoutSeconds.Some? && r.timeoutSeconds.value > 0
  {
  }

  /** updateHealthStatus, with the clock reading `now`. */
  function UpdateHealthStatus(s: Server, status: Option<HealthStatus>, now: int): (r: Server)
    ensures r.healthStatus == status && r.lastHealthCheckTime == Some(now)
    ensures r.(healthStatus := s.healthStatus, lastHealthCheckTime := s.lastHealthCheckTime) == s
  {
    s.(healthStatus := status, lastHealthCheckTime := Some(now))
  }

  predicate IsHealthy(s: Server)
    ensures s.healthStatus.None? ==> !IsHealthy(s)
    ensures IsHealthy(s) ==> s.healthStatus == Some(Healthy)
  {
    s.healthStatus == Some(Healthy)
  }

  /** The health flag reflects exactly the last status recorded. */
  lemma HealthyIffLastStatusHealthy(s: Server, status: Option<HealthStatus>, now: int)
    ensures IsHealthy(UpdateHealthStatus(s, status, now)) <==> status == Some(Healthy)
  {
  }
}
