/**
 * The periodic refresh of `startSpotifyRefresh` and the refresh button:
 * update the song stack with the stored access token and, when Spotify
 * answers 401, refresh the token once, retry once, or disconnect.
 *
 * `updateLeftStackFromSpotify` is the parameter `update`, which answers
 * how an update with a given token ends; the token endpoint is the
 * parameter `endpoint`, which answers a refresh token with the endpoint's
 * reply.  A tick's awaits are not interleaved with other ticks here, so the
 * `isRefreshing` flag only shows as set when a tick starts while another
 * is taken to be running.
 */
module Refresh {
  import opened Common
  import Spotify

  /** How `updateLeftStackFromSpotify` ends: normally, or with an error and its `status` when it has one. */
  datatype UpdateOutcome = Updated | UpdateFailed(status: Option<int>)

  /**
   * The state a refresh reads and writes: the reentrancy flag, whether the
   * interval runs, the stored tokens (`""` when not stored) and whether the
   * UI shows Spotify connected.
   */
  datatype Session = Session(isRefreshing: bool, intervalActive: bool,
                             accessToken: string, refreshToken: string, connected: bool)

  /** A refresh's effect: the new session and the tokens the stack was updated with, in order. */
  datatype Step = Step(after: Session, updates: seq<string>)

  /** Whether an update failed because the access token expired. */
  predicate Expired(outcome: UpdateOutcome)
  {
    outcome.UpdateFailed? && outcome.status == Some(401)
  }

  /**
   * How the 401 handler ends with a stored refresh token: with the new
   * tokens after a successful refresh and retry, or with a failure (the
   * refresh throws, answers no access token, or the retry fails).
   */
  datatype Recovery = Recovered(accessToken: string, refreshToken: string) | RecoveryFailed

  function Recover(refreshToken: string, update: string -> UpdateOutcome,
                   endpoint: string -> Spotify.TokenReply): Recovery
  {
    match Spotify.RefreshAccessToken(endpoint(refreshToken))
    case Failure(_) => RecoveryFailed
    case Success(tokens) =>
      if tokens.accessToken == "" || !update(tokens.accessToken).Updated? then RecoveryFailed
      else Recovered(tokens.accessToken, if tokens.refreshToken != "" then tokens.refreshToken else refreshToken)
  }

  /** The tokens the stack is updated with once the first update with `token` has ended in `outcome`. */
  function UpdateCalls(token: string, outcome: UpdateOutcome, refreshToken: string,
                       endpoint: string -> Spotify.TokenReply): seq<string>
  {
    if Expired(outcome) && refreshToken != "" then
      match Spotify.RefreshAccessToken(endpoint(refreshToken))
      case Success(tokens) => if tokens.accessToken != "" then [token, tokens.accessToken] else [token]
      case Failure(_) => [token]
    else [token]
  }

  /** One tick of the interval. */
  function TickStep(s: Session, update: string -> UpdateOutcome, endpoint: string -> Spotify.TokenReply): Step
  {
    if s.isRefreshing then Step(s, [])
    else if s.accessToken == "" then Step(s.(intervalActive := false), [])
    else
      var outcome := update(s.accessToken);
      var calls := UpdateCalls(s.accessToken, outcome, s.refreshToken, endpoint);
      if !Expired(outcome) then Step(s, calls)
      else if s.refreshToken == "" then Step(s.(intervalActive := false, connected := false), calls)
      else
        match Recover(s.refreshToken, update, endpoint)
        case Recovered(access, refresh) => Step(s.(accessToken := access, refreshToken := refresh), calls)
        case RecoveryFailed =>
          Step(s.(intervalActive := false, connected := false, accessToken := "", refreshToken := ""), calls)
  }

  /** One click of the refresh button. */
  function ManualStep(s: Session, update: string -> UpdateOutcome, endpoint: string -> Spotify.TokenReply): Step
  {
    if s.accessToken == "" then Step(s, [])
    else
      var outcome := update(s.accessToken);
      var calls := UpdateCalls(s.accessToken, outcome, s.refreshToken, endpoint);
      if !Expired(outcome) then Step(s, calls)
      else if s.refreshToken == "" then Step(s.(connected := false, accessToken := "", refreshToken := ""), calls)
      else
        match Recover(s.refreshToken, update, endpoint)
        case Recovered(access, refresh) => Step(s.(accessToken := access, refreshToken := refresh), calls)
        case RecoveryFailed => Step(s.(connected := false, accessToken := "", refreshToken := ""), calls)
  }

  class RefreshLoop {
    var isRefreshing: bool
    var intervalActive: bool
    var accessToken: string
    var refreshToken: string
    var connected: bool

    constructor(accessToken: string, refreshToken: string, connected: bool)
      ensures Snapshot() == Session(false, false, accessToken, refreshToken, connected)
    {
      this.isRefreshing := false;
      this.intervalActive := false;
      this.accessToken := accessToken;
      this.refreshToken := refreshToken;
      this.connected := connected;
    }

    function Snapshot(): Session
      reads this
    {
      Session(isRefreshing, intervalActive, accessToken, refreshToken, connected)
    }

    /** `startSpotifyRefresh`: any running interval is replaced by a fresh one. */
    method Start()
      modifies this
      ensures Snapshot() == old(Snapshot()).(intervalActive := true)
    {
      intervalActive := true;
    }

    /** The body of the interval's callback. */
    method Tick(update: string -> UpdateOutcome, endpoint: string -> Spotify.TokenReply) returns (updates: seq<string>)
      modifies this
      ensures Step(Snapshot(), updates) == TickStep(old(Snapshot()), update, endpoint)
    {
      updates := [];
      if isRefreshing {
        return;
      }
      var token := accessToken;
      if token == "" {
        intervalActive := false;
        return;
      }
      isRefreshing := true;
      updates := [token];
      var outcome := update(token);
      if outcome.UpdateFailed? && outcome.status == Some(401) {
        var stored := refreshToken;
        if stored != "" {
          var failed := true;
          var refreshed := Spotify.RefreshAccessToken(endpoint(stored));
          if refreshed.Success? {
            var newAccess := refreshed.value.accessToken;
            var newRefresh := if refreshed.value.refreshToken != "" then refreshed.value.refreshToken else stored;
            if newAccess != "" {
              accessToken := newAccess;
              if newRefresh != "" {
                refreshToken := newRefresh;
              }
              updates := updates + [newAccess];
              failed := !update(newAccess).Updated?;
            }
          }
          if failed {
            intervalActive := false;
            connected := false;
            accessToken := "";
            refreshToken := "";
          }
        } else {
          intervalActive := false;
          connected := false;
        }
      }
      isRefreshing := false;
    }

    /** The refresh button's click handler; it leaves the interval and the flag alone. */
    method Manual(update: string -> UpdateOutcome, endpoint: string -> Spotify.TokenReply) returns (updates: seq<string>)
      modifies this
      ensures Step(Snapshot(), updates) == ManualStep(old(Snapshot()), update, endpoint)
    {
      updates := [];
      var token := accessToken;
      if token == "" {
        return;
      }
      updates := [token];
      var outcome := update(token);
      if outcome.UpdateFailed? && outcome.status == Some(401) {
        var stored := refreshToken;
        if stored != "" {
          var failed := true;
          var refreshed := Spotify.RefreshAccessToken(endpoint(stored));
          if refreshed.Success? {
            var newAccess := refreshed.value.accessToken;
            var newRefresh := if refreshed.value.refreshToken != "" then refreshed.value.refreshToken else stored;
            if newAccess != "" {
              accessToken := newAccess;
              if newRefresh != "" {
                refreshToken := newRefresh;
              }
              updates := updates + [newAccess];
              failed := !update(newAccess).Updated?;
            }
          }
          if failed {
            accessToken := "";
            refreshToken := "";
            connected := false;
          }
        } else {
          accessToken := "";
          refreshToken := "";
          connected := false;
        }
      }
    }
  }

  /**
   * A tick that finds another running does nothing; a tick that runs ends
   * with the flag cleared; without an access token it stops the interval,
   * updates nothing and changes nothing else.
   */
  lemma TickFlag(s: Session, update: string -> UpdateOutcome, endpoint: string -> Spotify.TokenReply)
    ensures s.isRefreshing ==> TickStep(s, update, endpoint) == Step(s, [])
    ensures !s.isRefreshing ==> !TickStep(s, update, endpoint).after.isRefreshing
    ensures !s.isRefreshing && s.accessToken == "" ==>
      TickStep(s, update, endpoint) == Step(s.(intervalActive := false), [])
  {
  }

  /**
   * The update runs first with the stored token and is retried at most
   * once, with the new access token, and only after a 401 and a
   * successful refresh.
   */
  lemma RetriedAtMostOnce(s: Session, update: string -> UpdateOutcome, endpoint: string -> Spotify.TokenReply)
    requires !s.isRefreshing && s.accessToken != ""
    ensures var u := TickStep(s, update, endpoint).updates;
      1 <= |u| <= 2 && u[0] == s.accessToken
      && (|u| == 2 <==> Expired(update(s.accessToken)) && s.refreshToken != ""
                        && Spotify.RefreshAccessToken(endpoint(s.refreshToken)).Success?
                        && Spotify.RefreshAccessToken(endpoint(s.refreshToken)).value.accessToken != "")
      && (|u| == 2 ==> u[1] == Spotify.RefreshAccessToken(endpoint(s.refreshToken)).value.accessToken)
  {
  }

  /**
   * After a refresh and a retry that succeed, the new access token is
   * stored and the refresh token becomes the one returned, or stays the old
   * one when none is returned (the server may or may not issue a new one,
   * section 6 of RFC 6749); the interval keeps running.
   */
  lemma RefreshRetainsToken(s: Session, update: string -> UpdateOutcome, endpoint: string -> Spotify.TokenReply)
    requires !s.isRefreshing && s.accessToken != "" && Expired(update(s.accessToken)) && s.refreshToken != ""
    requires Recover(s.refreshToken, update, endpoint).Recovered?
    ensures var reply := Spotify.RefreshAccessToken(endpoint(s.refreshToken));
      var after := TickStep(s, update, endpoint).after;
      && reply.Success? && after.accessToken == reply.value.accessToken != ""
      && after.refreshToken == (if reply.value.refreshToken != "" then reply.value.refreshToken else s.refreshToken)
      && after.refreshToken != ""
      && after.intervalActive == s.intervalActive && after.connected == s.connected
  {
  }

  /**
   * A 401 ends the session when it cannot be recovered: a failed refresh or
   * retry clears both tokens, stops the interval and shows the UI
   * disconnected; without a refresh token the interval stops and the UI
   * shows disconnected, but the tokens stay.
   */
  lemma ExpiredWithoutRecovery(s: Session, update: string -> UpdateOutcome, endpoint: string -> Spotify.TokenReply)
    requires !s.isRefreshing && s.accessToken != "" && Expired(update(s.accessToken))
    ensures s.refreshToken == "" ==>
      TickStep(s, update, endpoint).after == s.(intervalActive := false, connected := false)
    ensures s.refreshToken != "" && Recover(s.refreshToken, update, endpoint).RecoveryFailed? ==>
      TickStep(s, update, endpoint).after
        == Session(false, false, "", "", false)
  {
  }

  /** A tick that gets no 401 leaves the session as it was. */
  lemma OtherOutcomesKeepSession(s: Session, update: string -> UpdateOutcome, endpoint: string -> Spotify.TokenReply)
    requires s.accessToken != "" && !Expired(update(s.accessToken))
    ensures TickStep(s, update, endpoint).after == s
    ensures ManualStep(s, update, endpoint).after == s
  {
  }

  /**
   * The button and the tick treat the tokens and the UI alike, except that
   * after a 401 with no refresh token the button also clears the tokens;
   * the button never touches the interval or the flag.
   */
  lemma ManualMatchesTick(s: Session, update: string -> UpdateOutcome, endpoint: string -> Spotify.TokenReply)
    requires !s.isRefreshing
    ensures var m := ManualStep(s, update, endpoint);
      m.after.intervalActive == s.intervalActive && m.after.isRefreshing == s.isRefreshing
    ensures var m := ManualStep(s, update, endpoint);
      var t := TickStep(s, update, endpoint);
      && m.updates == t.updates
      && m.after.connected == t.after.connected
      && (if s.accessToken != "" && Expired(update(s.accessToken)) && s.refreshToken == ""
          then m.after.accessToken == "" && m.after.refreshToken == ""
          else m.after.accessToken == t.after.accessToken && m.after.refreshToken == t.after.refreshToken)
  {
  }
}
