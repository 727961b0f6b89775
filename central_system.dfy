/**
  The central-system side of the OCPP 1.6 connection in das1.py: the
  charge-point identity taken from the connection path, and the fixed replies
  to BootNotification (section 4.2 of OCPP 1.6) and StatusNotification
  (section 4.9 of OCPP 1.6).  The websocket server, the message routing and
  the encoding are not modelled.
 */
module CentralSystem {

  // ---------------------------------------------------------------------
  // Charge-point identity: the connection path with every leading and
  // trailing '/' removed (Python's `path.strip('/')`).
  // ---------------------------------------------------------------------

  /** Neither the first nor the last character is a '/'. */
  predicate NoEdgeSlash(s: string) {
    s == [] || (s[0] != '/' && s[|s| - 1] != '/')
  }

  /**
    `r` sits in `path` at offset `i`, and every character of `path` outside
    that stretch is a '/'.
   */
  predicate StrippedAt(path: string, i: int, r: string) {
    && 0 <= i <= |path| - |r|
    && path[i..i + |r|] == r
    && (forall k :: 0 <= k < i ==> path[k] == '/')
    && (forall k :: i + |r| <= k < |path| ==> path[k] == '/')
  }

  /** Drops the leading '/' characters: the rest is a suffix not starting with '/'. */
  function TrimLeft(s: string): (r: string)
    ensures |r| <= |s| && r == s[|s| - |r|..]
    ensures r == [] || r[0] != '/'
    ensures forall k :: 0 <= k < |s| - |r| ==> s[k] == '/'
  {
    if s != [] && s[0] == '/' then TrimLeft(s[1..]) else s
  }

  /** Drops the trailing '/' characters: the rest is a prefix not ending with '/'. */
  function TrimRight(s: string): (r: string)
    ensures |r| <= |s| && r == s[..|r|]
    ensures r == [] || r[|r| - 1] != '/'
    ensures forall k :: |r| <= k < |s| ==> s[k] == '/'
  {
    if s != [] && s[|s| - 1] == '/' then TrimRight(s[..|s| - 1]) else s
  }

  /**
    The charge-point identity of a connection path: a contiguous part of the
    path, with no '/' at either end, such that everything cut away is '/'.
   */
  function StripSlashes(path: string): (id: string)
    ensures NoEdgeSlash(id)
    ensures exists i :: StrippedAt(path, i, id)
  {
    var t := TrimLeft(path);
    var r := TrimRight(t);
    assert t[..|r|] == r;
    assert StrippedAt(path, |path| - |t|, r);
    r
  }

  /**
    The description pins the identity down: any stretch of the path with no
    '/' at its ends and only '/' around it is the stripped identity.
   */
  lemma StripSlashesUnique(path: string, i: int, s: string)
    requires StrippedAt(path, i, s) && NoEdgeSlash(s)
    ensures s == StripSlashes(path)
  {
    var r := StripSlashes(path);
    var j :| StrippedAt(path, j, r);
    if s != [] && r != [] {
      // Both start at the first character that is not a '/' ...
      assert path[i] == s[0] && path[j] == r[0];
      assert i == j;
      // ... and end at the last one.
      assert path[i + |s| - 1] == s[|s| - 1] && path[j + |r| - 1] == r[|r| - 1];
      assert |s| == |r|;
    }
  }

  /** A path is its own identity exactly when it neither starts nor ends with '/'. */
  lemma StripSlashesFixed(path: string)
    ensures StripSlashes(path) == path <==> NoEdgeSlash(path)
  {
    if NoEdgeSlash(path) {
      assert path[0..|path|] == path;
      StripSlashesUnique(path, 0, path);
    }
  }

  /** Stripping an identity again changes nothing. */
  lemma StripSlashesIdempotent(path: string)
    ensures StripSlashes(StripSlashes(path)) == StripSlashes(path)
  {
    StripSlashesFixed(StripSlashes(path));
  }

  // ---------------------------------------------------------------------
  // Message payloads.  Both handlers receive the request fields as keyword
  // arguments and never look at them, so a request is just its field map.
  // ---------------------------------------------------------------------

  /** The keyword arguments a handler receives: field name to field value. */
  type Kwargs = map<string, string>

  // ---------------------------------------------------------------------
  // BootNotification (section 4.2 of OCPP 1.6)
  // ---------------------------------------------------------------------

  /** RegistrationStatus of OCPP 1.6. */
  datatype RegistrationStatus = Accepted | Pending | Rejected

  /** The fields of a BootNotification confirmation. */
  datatype BootNotificationConf = BootNotificationConf(
    currentTime: string,
    interval: int,
    status: RegistrationStatus)

  /** The server time every confirmation carries. */
  const BootCurrentTime: string := "2023-01-01T00:00:00Z"

  /** The heartbeat interval, in seconds, every confirmation carries. */
  const BootInterval: int := 10

  /**
    Every charge point that boots is registered: the answer is Accepted with a
    ten-second heartbeat interval and the fixed server time.
   */
  function OnBootNotification(kwargs: Kwargs): (conf: BootNotificationConf)
    ensures conf.status == Accepted
    ensures conf.interval == BootInterval && conf.interval > 0
    ensures conf.currentTime == BootCurrentTime
  {
    BootNotificationConf(BootCurrentTime, BootInterval, Accepted)
  }

  /** The answer to a BootNotification does not depend on what the request says. */
  lemma BootNotificationIgnoresPayload(a: Kwargs, b: Kwargs)
    ensures OnBootNotification(a) == OnBootNotification(b)
  {
  }

  // ---------------------------------------------------------------------
  // StatusNotification (section 4.9 of OCPP 1.6)
  // ---------------------------------------------------------------------

  /** A StatusNotification confirmation has no fields. */
  datatype StatusNotificationConf = StatusNotificationConf

  /**
    Every status report is confirmed with the empty confirmation; the
    confirmation type has no way to reject.
   */
  function OnStatusNotification(kwargs: Kwargs): (conf: StatusNotificationConf)
    ensures conf == StatusNotificationConf
  {
    StatusNotificationConf
  }
}
