/** The download loop of `main.py`: one iteration per day from the start
    date to the end date, skipping days whose tile file is already on disk
    unless overwriting is requested, keeping the number of requests per
    minute under the configured rate, refreshing the access token when it
    expires, and collecting the names of the files to mosaic.

    The wall clock, the authentication service and the image service are
    oracles: each day supplies the clock reading, the credential a
    re-authentication would return, and whether the fetch wrote the file.
    Sleeping is a no-op; the loop keeps the clock reading taken before it. */
module Acquisition {
  import opened Calendar

  /** What the authentication service returns: an access token and its
      lifetime in seconds. */
  datatype Credential = Credential(token: string, expiresIn: real)

  /** What one iteration observes from outside: the clock reading `now`,
      the credential a re-authentication would return, and whether the
      fetch (when one is made) wrote the day's file. */
  datatype DayInputs = DayInputs(now: real, auth: Credential, fetched: bool)

  /** Command line and configuration: `MINUTE_RATE`, `-ow`, `-show` and
      the polygon file path `-area`. */
  datatype Config = Config(reqRate: int, ow: bool, show: bool, area: string)

  /** The loop's variables, and the set of tile files on disk. */
  datatype State = State(
    reqCount: int,
    startBatchTime: real,
    exp: real,
    token: string,
    files: set<string>,
    images: seq<string>)

  /** Seconds in the rate window. */
  const Window: real := 60.0

  /** State before the first day: no request counted, the window opened at
      the first clock reading `clock0`, the token expiring half its lifetime
      after the second reading `clock1`. */
  function Initial(files: set<string>, clock0: real, clock1: real, auth: Credential): (s: State)
    ensures s.reqCount == 0 && s.images == [] && s.files == files
  {
    State(0, clock0, clock1 + auth.expiresIn * 0.5, auth.token, files, [])
  }

  /** A request is made for the day whose file is `fn` unless overwriting
      is off and that file already exists. */
  predicate Fetches(cfg: Config, s: State, fn: string)
  {
    cfg.ow || fn !in s.files
  }

  /** One iteration of the loop, for the day whose file is `fn`. */
  function Next(cfg: Config, s: State, fn: string, inp: DayInputs): State
  {
    var s1 := if Fetches(cfg, s, fn) then Request(cfg, s, fn, inp) else s;
    if cfg.show && fn in s1.files then s1.(images := s1.images + [fn]) else s1
  }

  /** The bookkeeping around one request. */
  function Request(cfg: Config, s: State, fn: string, inp: DayInputs): State
  {
    // a window older than a minute is closed
    var closed := inp.now - s.startBatchTime >= Window;
    var count := if closed then 0 else s.reqCount;
    // one request short of the rate: wait, then open a new window
    var paused := count == cfg.reqRate - 1;
    var refreshed := inp.now >= s.exp;
    State(
      if paused then 1 else count + 1,
      if closed || paused then inp.now else s.startBatchTime,
      if refreshed then inp.now + inp.auth.expiresIn * 0.5 else s.exp,
      if refreshed then inp.auth.token else s.token,
      if inp.fetched then s.files + {fn} else s.files,
      s.images)
  }

  /** The state after the days whose files are `names`, the k-th day
      observing `oracle(k)`. */
  function Run(cfg: Config, s: State, names: seq<string>, oracle: nat -> DayInputs): State
  {
    if names == [] then s
    else Next(cfg, Run(cfg, s, names[..|names| - 1], oracle), names[|names| - 1], oracle(|names| - 1))
  }

  /** The number of requests made over those days. */
  function Requests(cfg: Config, s: State, names: seq<string>, oracle: nat -> DayInputs): nat
  {
    if names == [] then 0
    else
      var init := names[..|names| - 1];
      Requests(cfg, s, init, oracle) + (if Fetches(cfg, Run(cfg, s, init, oracle), names[|names| - 1]) then 1 else 0)
  }

  /** One more day extends the run by one step. */
  lemma RunSnoc(cfg: Config, s: State, names: seq<string>, fn: string, oracle: nat -> DayInputs)
    ensures Run(cfg, s, names + [fn], oracle) == Next(cfg, Run(cfg, s, names, oracle), fn, oracle(|names|))
    ensures Requests(cfg, s, names + [fn], oracle)
            == Requests(cfg, s, names, oracle) + (if Fetches(cfg, Run(cfg, s, names, oracle), fn) then 1 else 0)
  {
    assert (names + [fn])[..|names|] == names;
  }

  /** The loop's variables as fields, updated in place day by day. */
  class Driver {
    const cfg: Config
    var reqCount: int
    var startBatchTime: real
    var exp: real
    var token: string
    var files: set<string>
    var images: seq<string>

    function Snapshot(): State
      reads this
    {
      State(reqCount, startBatchTime, exp, token, files, images)
    }

    /** Set up before the loop, from the first authentication. */
    constructor (cfg: Config, files: set<string>, clock0: real, clock1: real, auth: Credential)
      ensures this.cfg == cfg
      ensures Snapshot() == Initial(files, clock0, clock1, auth)
    {
      this.cfg := cfg;
      reqCount := 0;
      startBatchTime := clock0;
      exp := clock1 + auth.expiresIn * 0.5;
      token := auth.token;
      this.files := files;
      images := [];
    }

    /** One day of the loop, whose file is `fn`; reports whether a request
        was made. */
    method Step(fn: string, inp: DayInputs) returns (requested: bool)
      modifies this
      ensures requested == Fetches(cfg, old(Snapshot()), fn)
      ensures Snapshot() == Next(cfg, old(Snapshot()), fn, inp)
    {
      var now := inp.now;
      requested := cfg.ow || fn !in files;
      if requested {
        if now - startBatchTime >= Window {
          startBatchTime := now;
          reqCount := 0;
        }
        if reqCount == cfg.reqRate - 1 {
          // the pause is not modelled: the window restarts at `now`
          startBatchTime := now;
          reqCount := 0;
        }
        if now >= exp {
          token := inp.auth.token;
          exp := now + inp.auth.expiresIn * 0.5;
        }
        if inp.fetched {
          files := files + {fn};
        }
        reqCount := reqCount + 1;
      }
      if cfg.show && fn in files {
        images := images + [fn];
      }
    }

    /** The whole loop from `start` to `end`, both included; returns the
        number of requests made. */
    method Drive(start: nat, end: nat, oracle: nat -> DayInputs) returns (requests: nat)
      modifies this
      ensures Snapshot() == Run(cfg, old(Snapshot()), DayFiles(cfg.area, start, end), oracle)
      ensures requests == Requests(cfg, old(Snapshot()), DayFiles(cfg.area, start, end), oracle)
    {
      var current := start;
      requests := 0;
      ghost var names: seq<string> := [];
      var k := 0;
      while current <= end
        invariant DayFiles(cfg.area, start, end) == names + DayFiles(cfg.area, current, end)
        invariant k == |names|
        invariant requests == Requests(cfg, old(Snapshot()), names, oracle)
        invariant Snapshot() == Run(cfg, old(Snapshot()), names, oracle)
        decreases end + SecondsPerDay - current
      {
        var fn := CsvName(cfg.area, current);
        assert DayFiles(cfg.area, current, end) == [fn] + DayFiles(cfg.area, current + SecondsPerDay, end);
        var requested := Step(fn, oracle(k));
        if requested {
          requests := requests + 1;
        }
        RunSnoc(cfg, old(Snapshot()), names, fn, oracle);
        names := names + [fn];
        k := k + 1;
        current := current + SecondsPerDay;
      }
      assert DayFiles(cfg.area, current, end) == [];
      assert names + [] == names;
    }
  }

  /** With a rate of at least 2, a request leaves the counter between 1
      and rate - 1, given it was below the rate before. */
  lemma RequestCountBound(cfg: Config, s: State, fn: string, inp: DayInputs)
    requires 2 <= cfg.reqRate && 0 <= s.reqCount < cfg.reqRate
    requires Fetches(cfg, s, fn)
    ensures 1 <= Next(cfg, s, fn, inp).reqCount <= cfg.reqRate - 1
  {
  }

  /** Over any number of days, with a rate of at least 2, the counter stays
      in 0..rate - 1, and is at least 1 once a request has been made. */
  lemma {:induction false} RunCountBound(cfg: Config, s: State, names: seq<string>, oracle: nat -> DayInputs)
    requires 2 <= cfg.reqRate && 0 <= s.reqCount < cfg.reqRate
    ensures 0 <= Run(cfg, s, names, oracle).reqCount <= cfg.reqRate - 1
    ensures Requests(cfg, s, names, oracle) > 0 ==> Run(cfg, s, names, oracle).reqCount >= 1
  {
    if names != [] {
      var init := names[..|names| - 1];
      RunCountBound(cfg, s, init, oracle);
      var t := Run(cfg, s, init, oracle);
      if Fetches(cfg, t, names[|names| - 1]) {
        RequestCountBound(cfg, t, names[|names| - 1], oracle(|names| - 1));
      }
    }
  }

  /** The day whose file is `fn` resets the counter: it makes a request,
      and either the window is closed or the pause fires. */
  predicate Restart(cfg: Config, s: State, fn: string, inp: DayInputs)
  {
    var closed := inp.now - s.startBatchTime >= Window;
    var count := if closed then 0 else s.reqCount;
    Fetches(cfg, s, fn) && (closed || count == cfg.reqRate - 1)
  }

  /** No day of the run resets the counter. */
  predicate NoRestart(cfg: Config, s: State, names: seq<string>, oracle: nat -> DayInputs)
  {
    forall k :: 0 <= k < |names| ==> !Restart(cfg, Run(cfg, s, names[..k], oracle), names[k], oracle(k))
  }

  /** Between resets the counter counts the requests made. */
  lemma {:induction false} CounterCountsRequests(cfg: Config, s: State, names: seq<string>, oracle: nat -> DayInputs)
    requires NoRestart(cfg, s, names, oracle)
    ensures Run(cfg, s, names, oracle).reqCount == s.reqCount + Requests(cfg, s, names, oracle)
  {
    if names != [] {
      var init := names[..|names| - 1];
      assert NoRestart(cfg, s, init, oracle) by {
        forall k | 0 <= k < |init|
          ensures !Restart(cfg, Run(cfg, s, init[..k], oracle), init[k], oracle(k))
        {
          assert init[..k] == names[..k] && init[k] == names[k];
        }
      }
      CounterCountsRequests(cfg, s, init, oracle);
      var k := |names| - 1;
      assert names[..k] == init;
      assert !Restart(cfg, Run(cfg, s, init, oracle), names[k], oracle(k));
    }
  }

  /** With a rate of at least 2, at most rate - 1 requests are made between
      resets, counting those already in the window. */
  lemma WindowCap(cfg: Config, s: State, names: seq<string>, oracle: nat -> DayInputs)
    requires 2 <= cfg.reqRate && 0 <= s.reqCount < cfg.reqRate
    requires NoRestart(cfg, s, names, oracle)
    ensures Requests(cfg, s, names, oracle) <= cfg.reqRate - 1 - s.reqCount
  {
    CounterCountsRequests(cfg, s, names, oracle);
    RunCountBound(cfg, s, names, oracle);
  }

  /** With a rate of 1 the pause fires only on a counter of 0, so requests
      made within one minute of the window's start are counted without
      bound: n requests raise the counter by n. */
  lemma {:induction false} RateOneUnbounded(cfg: Config, s: State, names: seq<string>, oracle: nat -> DayInputs)
    requires cfg.reqRate == 1 && cfg.ow && s.reqCount >= 1
    requires forall k :: 0 <= k < |names| ==> oracle(k).now - s.startBatchTime < Window
    ensures Run(cfg, s, names, oracle).reqCount == s.reqCount + |names|
    ensures Run(cfg, s, names, oracle).startBatchTime == s.startBatchTime
  {
    if names != [] {
      var init := names[..|names| - 1];
      assert forall k :: 0 <= k < |init| ==> oracle(k).now - s.startBatchTime < Window;
      RateOneUnbounded(cfg, s, init, oracle);
      assert oracle(|names| - 1).now - s.startBatchTime < Window;
    }
  }

  /** After a request, the clock reading lies inside the current window,
      provided it is not earlier than the window's start before. */
  lemma WindowAfterRequest(cfg: Config, s: State, fn: string, inp: DayInputs)
    requires Fetches(cfg, s, fn) && s.startBatchTime <= inp.now
    ensures Next(cfg, s, fn, inp).startBatchTime <= inp.now < Next(cfg, s, fn, inp).startBatchTime + Window
  {
  }

  /** A request re-authenticates exactly when the token has expired
      (now >= exp), and then the new expiry is now plus half the lifetime;
      with a positive lifetime the token is unexpired when the request is
      made. */
  lemma TokenRefresh(cfg: Config, s: State, fn: string, inp: DayInputs)
    requires Fetches(cfg, s, fn) && inp.auth.expiresIn > 0.0
    ensures var t := Next(cfg, s, fn, inp);
            && (inp.now >= s.exp ==> t.token == inp.auth.token && t.exp == inp.now + inp.auth.expiresIn * 0.5)
            && (inp.now < s.exp ==> t.token == s.token && t.exp == s.exp)
            && inp.now < t.exp
  {
  }

  /** With positive lifetimes, the expiry time never moves backwards. */
  lemma {:induction false} ExpiryMonotone(cfg: Config, s: State, names: seq<string>, oracle: nat -> DayInputs)
    requires forall k :: 0 <= k < |names| ==> oracle(k).auth.expiresIn > 0.0
    ensures s.exp <= Run(cfg, s, names, oracle).exp
  {
    if names != [] {
      var init := names[..|names| - 1];
      assert forall k :: 0 <= k < |init| ==> oracle(k).auth.expiresIn > 0.0;
      ExpiryMonotone(cfg, s, init, oracle);
      assert oracle(|names| - 1).auth.expiresIn > 0.0;
    }
  }

  /** A cached day makes no request and changes nothing but `images`,
      which receives the file's name when showing. */
  lemma CacheSkip(cfg: Config, s: State, fn: string, inp: DayInputs)
    requires !cfg.ow && fn in s.files
    ensures !Fetches(cfg, s, fn)
    ensures Next(cfg, s, fn, inp) == s.(images := if cfg.show then s.images + [fn] else s.images)
  {
  }

  /** Every collected name is of a file on disk, and files only accumulate. */
  lemma {:induction false} ImagesExist(cfg: Config, s: State, names: seq<string>, oracle: nat -> DayInputs)
    requires forall f :: f in s.images ==> f in s.files
    ensures s.files <= Run(cfg, s, names, oracle).files
    ensures forall f :: f in Run(cfg, s, names, oracle).images ==> f in Run(cfg, s, names, oracle).files
  {
    if names != [] {
      ImagesExist(cfg, s, names[..|names| - 1], oracle);
    }
  }

  /** Without `-show`, no name is collected. */
  lemma {:induction false} HiddenImages(cfg: Config, s: State, names: seq<string>, oracle: nat -> DayInputs)
    requires !cfg.show
    ensures Run(cfg, s, names, oracle).images == s.images
  {
    if names != [] {
      HiddenImages(cfg, s, names[..|names| - 1], oracle);
    }
  }

  /** The names collected over a run are appended after the earlier ones,
      and are some of the days' file names, in day order. */
  lemma {:induction false} ImagesInOrder(cfg: Config, s: State, names: seq<string>, oracle: nat -> DayInputs)
    ensures |s.images| <= |Run(cfg, s, names, oracle).images|
    ensures Run(cfg, s, names, oracle).images[..|s.images|] == s.images
    ensures Subsequence(Run(cfg, s, names, oracle).images[|s.images|..], names)
  {
    if names != [] {
      var init := names[..|names| - 1];
      var fn := names[|names| - 1];
      ImagesInOrder(cfg, s, init, oracle);
      var before := Run(cfg, s, init, oracle).images;
      var after := Run(cfg, s, names, oracle).images;
      if after == before {
        assert Subsequence(after[|s.images|..], names);
      } else {
        assert after == before + [fn];
        assert after[|s.images|..] == before[|s.images|..] + [fn];
        assert after[|s.images|..][..|after| - |s.images| - 1] == before[|s.images|..];
      }
    }
  }

  /** Re-running without overwriting over days whose files are all on disk
      makes no request and leaves the counter, window and token untouched;
      with `-show` every day's name is collected. */
  lemma {:induction false} CachedRerun(cfg: Config, s: State, names: seq<string>, oracle: nat -> DayInputs)
    requires !cfg.ow
    requires forall i :: 0 <= i < |names| ==> names[i] in s.files
    ensures Requests(cfg, s, names, oracle) == 0
    ensures Run(cfg, s, names, oracle) == s.(images := if cfg.show then s.images + names else s.images)
  {
    if names != [] {
      var init := names[..|names| - 1];
      assert forall i :: 0 <= i < |init| ==> init[i] in s.files by {
        forall i | 0 <= i < |init| ensures init[i] in s.files {
          assert init[i] == names[i];
        }
      }
      CachedRerun(cfg, s, init, oracle);
      assert names[|names| - 1] in s.files;
      assert names == init + [names[|names| - 1]];
    }
  }
}
