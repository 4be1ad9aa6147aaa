/**
 * The status and control of the `picoclaw` systemd service: the parse of
 * `systemctl show` output into four flags and a textual status, the
 * five-second status cache, and the start/stop/restart actions.
 *
 * Time is a number of nanoseconds handed in by the caller; running a
 * command is a function from its argument list to its outcome.
 */
module ServiceStatus {
  import opened Wrappers
  import opened Text

  /** The service every command is about. */
  const ServiceUnit := "picoclaw"

  /** Five seconds, in nanoseconds. */
  const CacheTtl := 5_000_000_000

  /**
   * `ServiceResponse`.  `activeSince` is `None` for the zero time, which it
   * keeps unless a line gives a timestamp that parses.
   */
  datatype ServiceResponse = ServiceResponse(
    active: bool, running: bool, loaded: bool, enabled: bool,
    status: string, activeSince: Option<int>, timestamp: int)

  /** `strings.SplitN(line, "=", 2)` when it yields two parts: the text before the first `=` and the rest. */
  function KeyValue(line: string): (r: Option<(string, string)>)
    ensures r.None? <==> '=' !in line
    ensures r.Some? ==> line == r.value.0 + "=" + r.value.1 && '=' !in r.value.0
  {
    if line == [] then None
    else if line[0] == '=' then Some(([], line[1..]))
    else
      match KeyValue(line[1..])
      case None => None
      case Some(kv) => Some(([line[0]] + kv.0, kv.1))
  }

  /** What one output line does to the response being built. */
  function ApplyLine(r: ServiceResponse, line: string, parseTime: string -> Option<int>): ServiceResponse {
    if line == "" then r
    else
      match KeyValue(line)
      case None => r
      case Some((key, value)) =>
        if key == "ActiveState" then r.(active := value == "active")
        else if key == "SubState" then r.(running := value == "running")
        else if key == "LoadState" then r.(loaded := value == "loaded")
        else if key == "UnitFileState" then r.(enabled := value == "enabled")
        else if key == "ActiveEnterTimestamp" then
          match parseTime(value)
          case Some(t) => r.(activeSince := Some(t))
          case None => r
        else r
  }

  /** The lines applied in order, from first to last. */
  function ApplyAll(r: ServiceResponse, lines: seq<string>, parseTime: string -> Option<int>): ServiceResponse {
    if lines == [] then r
    else ApplyLine(ApplyAll(r, lines[..|lines| - 1], parseTime), lines[|lines| - 1], parseTime)
  }

  /** `line` is a `key=value` line for `key`. */
  predicate HasKey(line: string, key: string) {
    KeyValue(line).Some? && KeyValue(line).value.0 == key
  }

  /** The value of the last line whose key is `key`, if any. */
  function LastValue(lines: seq<string>, key: string): (v: Option<string>)
    ensures v.Some? ==> exists i :: 0 <= i < |lines| && KeyValue(lines[i]) == Some((key, v.value))
                                    && forall j :: i < j < |lines| ==> !HasKey(lines[j], key)
    ensures v.None? <==> forall i :: 0 <= i < |lines| ==> !HasKey(lines[i], key)
  {
    if lines == [] then None
    else
      var init := lines[..|lines| - 1];
      var last := lines[|lines| - 1];
      assert forall i :: 0 <= i < |init| ==> init[i] == lines[i];
      if HasKey(last, key) then
        assert KeyValue(lines[|lines| - 1]) == Some((key, KeyValue(last).value.1));
        Some(KeyValue(last).value.1)
      else
        LastValue(init, key)
  }

  /** A flag as set by the last line with its key, or its initial value when there is none. */
  function Flag(lines: seq<string>, key: string, expected: string, initial: bool): bool {
    match LastValue(lines, key)
    case Some(v) => v == expected
    case None => initial
  }

  /** `Flag` is decided by the last line when it carries the key, and by the lines before it otherwise. */
  lemma FlagLast(lines: seq<string>, key: string, expected: string, initial: bool)
    requires lines != []
    ensures Flag(lines, key, expected, initial) ==
              StepFlag(lines[|lines| - 1], key, expected, Flag(lines[..|lines| - 1], key, expected, initial))
  {
  }

  /** The textual status derived from the two flags. */
  function StatusText(active: bool, running: bool): (s: string)
    ensures s == "Running" <==> active && running
    ensures s == "Active" <==> active && !running
    ensures s == "Stopped" <==> !active
  {
    if active && running then "Running" else if active then "Active" else "Stopped"
  }

  /** A response before any line is applied: all flags false, no status yet. */
  function Initial(now: int): ServiceResponse {
    ServiceResponse(false, false, false, false, "", None, now)
  }

  /** The reference for the parse of `systemctl show` output taken at time `now`. */
  function ShowResponse(output: string, now: int, parseTime: string -> Option<int>): ServiceResponse {
    var r := ApplyAll(Initial(now), Split(output, '\n'), parseTime);
    r.(status := StatusText(r.active, r.running))
  }

  /** The loop of `GetServiceStatus` over the output lines, then the status derivation. */
  method ParseShow(output: string, now: int, parseTime: string -> Option<int>) returns (response: ServiceResponse)
    ensures response == ShowResponse(output, now, parseTime)
  {
    response := Initial(now);
    var lines := Split(output, '\n');
    for i := 0 to |lines|
      invariant response == ApplyAll(Initial(now), lines[..i], parseTime)
    {
      assert lines[..i + 1][..i] == lines[..i];
      var line := lines[i];
      if line == "" {
        continue;
      }
      var kv := KeyValue(line);
      if kv.None? {
        continue;
      }
      var (key, value) := kv.value;
      if key == "ActiveState" {
        response := response.(active := value == "active");
      } else if key == "SubState" {
        response := response.(running := value == "running");
      } else if key == "LoadState" {
        response := response.(loaded := value == "loaded");
      } else if key == "UnitFileState" {
        response := response.(enabled := value == "enabled");
      } else if key == "ActiveEnterTimestamp" {
        var t := parseTime(value);
        if t.Some? {
          response := response.(activeSince := Some(t.value));
        }
      }
    }
    assert lines[..|lines|] == lines;
    if response.active && response.running {
      response := response.(status := "Running");
    } else if response.active {
      response := response.(status := "Active");
    } else {
      response := response.(status := "Stopped");
    }
  }

  /** A line with no `=`, or with a key outside the five, leaves the response as it is. */
  lemma IgnoredLine(r: ServiceResponse, line: string, parseTime: string -> Option<int>)
    requires KeyValue(line).None? ||
             KeyValue(line).value.0 !in {"ActiveState", "SubState", "LoadState", "UnitFileState", "ActiveEnterTimestamp"}
    ensures ApplyLine(r, line, parseTime) == r
  {
  }

  /**
   * Only the first `=` splits: a key without `=` followed by `=` and any
   * value, itself possibly holding `=`, is read back as that key and value.
   */
  lemma {:induction false} KeyValueFirst(key: string, value: string)
    requires '=' !in key
    ensures KeyValue(key + "=" + value) == Some((key, value))
  {
    if key == [] {
      assert key + "=" + value == ['='] + value;
    } else {
      assert (key + "=" + value)[1..] == key[1..] + "=" + value;
      KeyValueFirst(key[1..], value);
      assert [key[0]] + key[1..] == key;
    }
  }

  /** What a line does to one flag: sets it from its value when the line carries the flag's key. */
  function StepFlag(line: string, key: string, expected: string, current: bool): bool {
    var kv := KeyValue(line);
    if kv.Some? && kv.value.0 == key then kv.value.1 == expected else current
  }

  /** One line's effect on the flags, and on nothing else but `activeSince`. */
  lemma FlagStep(r: ServiceResponse, line: string, parseTime: string -> Option<int>)
    ensures var r' := ApplyLine(r, line, parseTime);
            && r'.active == StepFlag(line, "ActiveState", "active", r.active)
            && r'.running == StepFlag(line, "SubState", "running", r.running)
            && r'.loaded == StepFlag(line, "LoadState", "loaded", r.loaded)
            && r'.enabled == StepFlag(line, "UnitFileState", "enabled", r.enabled)
            && r'.status == r.status && r'.timestamp == r.timestamp
  {
    if line == "" {
      assert KeyValue(line).None?;
    } else if KeyValue(line).Some? {
      // The five keys have five different lengths, so at most one of them matches.
      var key := KeyValue(line).value.0;
      assert |"ActiveState"| == 11 && |"SubState"| == 8 && |"LoadState"| == 9;
      assert |"UnitFileState"| == 13 && |"ActiveEnterTimestamp"| == 20;
      if |key| !in {8, 9, 11, 13, 20} {
        assert ApplyLine(r, line, parseTime) == r;
      }
    }
  }

  /** A field that every line updates like a flag ends up as `Flag` says. */
  lemma {:induction false} Tracks(r: ServiceResponse, lines: seq<string>, parseTime: string -> Option<int>,
                                  key: string, expected: string, get: ServiceResponse -> bool)
    requires forall r', line :: get(ApplyLine(r', line, parseTime)) == StepFlag(line, key, expected, get(r'))
    ensures get(ApplyAll(r, lines, parseTime)) == Flag(lines, key, expected, get(r))
  {
    if lines != [] {
      Tracks(r, lines[..|lines| - 1], parseTime, key, expected, get);
      FlagLast(lines, key, expected, get(r));
    }
  }

  /** No line changes the status or the timestamp. */
  lemma {:induction false} Keeps(r: ServiceResponse, lines: seq<string>, parseTime: string -> Option<int>)
    requires forall r', line :: ApplyLine(r', line, parseTime).status == r'.status
    requires forall r', line :: ApplyLine(r', line, parseTime).timestamp == r'.timestamp
    ensures ApplyAll(r, lines, parseTime).status == r.status
    ensures ApplyAll(r, lines, parseTime).timestamp == r.timestamp
  {
    if lines != [] {
      Keeps(r, lines[..|lines| - 1], parseTime);
    }
  }

  /**
   * Each flag is decided by the last line carrying its key: `active` iff the
   * last `ActiveState` value is `active`, and so on; with no such line the
   * flag keeps its starting value.  Other lines do not matter.
   */
  lemma {:induction false} FlagsFromLastValue(r: ServiceResponse, lines: seq<string>, parseTime: string -> Option<int>)
    ensures ApplyAll(r, lines, parseTime).active == Flag(lines, "ActiveState", "active", r.active)
    ensures ApplyAll(r, lines, parseTime).running == Flag(lines, "SubState", "running", r.running)
    ensures ApplyAll(r, lines, parseTime).loaded == Flag(lines, "LoadState", "loaded", r.loaded)
    ensures ApplyAll(r, lines, parseTime).enabled == Flag(lines, "UnitFileState", "enabled", r.enabled)
    ensures ApplyAll(r, lines, parseTime).status == r.status
    ensures ApplyAll(r, lines, parseTime).timestamp == r.timestamp
  {
    forall r', line ensures
      && ApplyLine(r', line, parseTime).active == StepFlag(line, "ActiveState", "active", r'.active)
      && ApplyLine(r', line, parseTime).running == StepFlag(line, "SubState", "running", r'.running)
      && ApplyLine(r', line, parseTime).loaded == StepFlag(line, "LoadState", "loaded", r'.loaded)
      && ApplyLine(r', line, parseTime).enabled == StepFlag(line, "UnitFileState", "enabled", r'.enabled)
      && ApplyLine(r', line, parseTime).status == r'.status
      && ApplyLine(r', line, parseTime).timestamp == r'.timestamp
    {
      FlagStep(r', line, parseTime);
    }
    Tracks(r, lines, parseTime, "ActiveState", "active", (x: ServiceResponse) => x.active);
    Tracks(r, lines, parseTime, "SubState", "running", (x: ServiceResponse) => x.running);
    Tracks(r, lines, parseTime, "LoadState", "loaded", (x: ServiceResponse) => x.loaded);
    Tracks(r, lines, parseTime, "UnitFileState", "enabled", (x: ServiceResponse) => x.enabled);
    Keeps(r, lines, parseTime);
  }

  /** The status of the parsed output, stated over the output's lines. */
  lemma ShowStatus(output: string, now: int, parseTime: string -> Option<int>)
    ensures var r := ShowResponse(output, now, parseTime);
            var lines := Split(output, '\n');
            && (r.active <==> LastValue(lines, "ActiveState") == Some("active"))
            && (r.running <==> LastValue(lines, "SubState") == Some("running"))
            && (r.loaded <==> LastValue(lines, "LoadState") == Some("loaded"))
            && (r.enabled <==> LastValue(lines, "UnitFileState") == Some("enabled"))
            && r.status == StatusText(r.active, r.running)
            && r.timestamp == now
  {
    FlagsFromLastValue(Initial(now), Split(output, '\n'), parseTime);
  }

  /** The argument list of the status command. */
  const ShowArgs := ["show", "--property=ActiveState,SubState,LoadState,UnitFileState,ActiveEnterTimestamp", ServiceUnit]

  /**
   * Whether a cache refreshed at `cacheTime` still answers at `now`; the
   * zero time (`None`) never does, being far more than five seconds ago.
   */
  predicate Fresh(cacheTime: Option<int>, now: int) {
    cacheTime.Some? && now - cacheTime.value < CacheTtl
  }

  /** The command an action runs, or `None` for one that is not allowed. */
  function ControlArgs(action: string): (args: Option<seq<string>>)
    ensures args.Some? <==> action in {"start", "stop", "restart"}
    ensures args.Some? ==> args.value == ["sudo", "-n", "systemctl", action, ServiceUnit]
  {
    if action == "start" || action == "stop" || action == "restart" then
      Some(["sudo", "-n", "systemctl", action, ServiceUnit])
    else None
  }

  /** The package-level cache: the last response and when it was taken. */
  class StatusCache {
    var cached: ServiceResponse
    var cacheTime: Option<int>

    /** Both zero values: empty response, zero time. */
    constructor ()
      ensures cacheTime.None? && cached == ServiceResponse(false, false, false, false, "", None, 0)
    {
      cached := ServiceResponse(false, false, false, false, "", None, 0);
      cacheTime := None;
    }

    /**
     * `GetServiceStatus` at time `now`: the cached response while it is
     * fresh, with no command run; otherwise the parsed output of
     * `systemctl show`, which becomes the cache.  A failing command leaves
     * the cache as it was.
     */
    method GetServiceStatus(now: int, systemctl: seq<string> -> Exit, parseTime: string -> Option<int>)
      returns (r: Result<ServiceResponse, string>)
      modifies this
      ensures Fresh(old(cacheTime), now) ==>
                r == Success(old(cached)) && cached == old(cached) && cacheTime == old(cacheTime)
      ensures !Fresh(old(cacheTime), now) && systemctl(ShowArgs).err.Some? ==>
                && r == Failure("failed to get service status: " + systemctl(ShowArgs).err.value)
                && cached == old(cached) && cacheTime == old(cacheTime)
      ensures !Fresh(old(cacheTime), now) && systemctl(ShowArgs).err.None? ==>
                && r == Success(ShowResponse(systemctl(ShowArgs).stdout, now, parseTime))
                && cached == r.value && cacheTime == Some(now)
    {
      if cacheTime.Some? && now - cacheTime.value < CacheTtl {
        return Success(cached);
      }
      var x := systemctl(ShowArgs);
      if x.err.Some? {
        return Failure("failed to get service status: " + x.err.value);
      }
      var response := ParseShow(x.stdout, now, parseTime);
      cached := response;
      cacheTime := Some(now);
      return Success(response);
    }

    /**
     * `ControlService`: refuses anything but start, stop and restart without
     * running a command; reports a failing command with its output; and after
     * a successful action resets the cache time so that the next status call
     * runs the command again.
     */
    method ControlService(action: string, run: seq<string> -> Exit) returns (err: Option<string>)
      modifies this
      ensures cached == old(cached)
      ensures ControlArgs(action).None? ==> err == Some("invalid action: " + action) && cacheTime == old(cacheTime)
      ensures ControlArgs(action).Some? && run(ControlArgs(action).value).err.Some? ==>
                && err == Some("failed to " + action + " service: " + run(ControlArgs(action).value).err.value
                               + "\nOutput: " + run(ControlArgs(action).value).stdout)
                && cacheTime == old(cacheTime)
      ensures ControlArgs(action).Some? && run(ControlArgs(action).value).err.None? ==>
                err.None? && cacheTime.None?
    {
      var args := ControlArgs(action);
      if args.None? {
        return Some("invalid action: " + action);
      }
      var x := run(args.value);
      if x.err.Some? {
        return Some("failed to " + action + " service: " + x.err.value + "\nOutput: " + x.stdout);
      }
      cacheTime := None;
      return None;
    }
  }

  /**
   * A successful action followed by a status request: whatever the time,
   * the request runs `systemctl show` again rather than answering from the
   * cache, and reports its outcome.
   */
  method ControlThenStatus(c: StatusCache, action: string, run: seq<string> -> Exit,
                           now: int, systemctl: seq<string> -> Exit, parseTime: string -> Option<int>)
    returns (err: Option<string>, r: Result<ServiceResponse, string>)
    modifies c
    ensures ControlArgs(action).Some? && run(ControlArgs(action).value).err.None? ==>
              && err.None?
              && r == (if systemctl(ShowArgs).err.Some?
                       then Failure("failed to get service status: " + systemctl(ShowArgs).err.value)
                       else Success(ShowResponse(systemctl(ShowArgs).stdout, now, parseTime)))
  {
    err := c.ControlService(action, run);
    r := c.GetServiceStatus(now, systemctl, parseTime);
  }

  /**
   * Two status requests less than five seconds apart: when the first one
   * refreshed the cache, the second answers with that same response (and
   * runs no command, whatever `systemctl` would now say).
   */
  method StatusTwice(c: StatusCache, first: int, second: int, systemctl: seq<string> -> Exit,
                     later: seq<string> -> Exit, parseTime: string -> Option<int>)
    returns (r1: Result<ServiceResponse, string>, r2: Result<ServiceResponse, string>)
    requires first <= second < first + CacheTtl
    modifies c
    ensures !Fresh(old(c.cacheTime), first) && r1.Success? ==> r2 == r1
  {
    r1 := c.GetServiceStatus(first, systemctl, parseTime);
    r2 := c.GetServiceStatus(second, later, parseTime);
  }
}
