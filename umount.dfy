/** `umount(path)` (speedtest_library.rb:6-21): unmount an AFP share with a
    bounded number of attempts.

    The decision depends only on what `filesystem(path)` returns over time.
    `obs(0)` is the reading taken on entry; `obs(k)` is the reading taken
    after the k-th `umount` command.  `Attempts(obs)` is how many `umount`
    commands the loop issues and `Fails(obs)` whether it then raises
    "Unable to unmount"; `Umount` is the loop itself, proved to behave as
    these two say. */
module Unmount {
  import opened Errors
  import opened FilesystemProbe
  import opened Environment

  /** The loop counter `c` stops the loop when it reaches this bound. */
  const MaxAttempts: nat := 5

  /** The number of commands issued once the loop is entered with counter
      `c`, the initial reading being AFP: the first reading after a command
      that differs from `obs(0)` ends the loop, and so does the counter
      reaching the bound. */
  function AttemptsFrom(obs: nat -> Option<string>, c: nat): (n: nat)
    requires c < MaxAttempts
    ensures c < n <= MaxAttempts
    ensures forall k :: c < k < n ==> obs(k) == obs(0)
    ensures n < MaxAttempts ==> obs(n) != obs(0)
    decreases MaxAttempts - c
  {
    if obs(c + 1) != obs(0) then c + 1
    else if c + 1 < MaxAttempts then AttemptsFrom(obs, c + 1)
    else MaxAttempts
  }

  /** The number of `umount` commands `umount(path)` issues. */
  function Attempts(obs: nat -> Option<string>): (n: nat)
    ensures n <= MaxAttempts
    ensures n == 0 <==> !IsAfp(obs(0))
  {
    if IsAfp(obs(0)) then AttemptsFrom(obs, 0) else 0
  }

  /** `umount(path)` raises "Unable to unmount". */
  predicate Fails(obs: nat -> Option<string>) {
    IsAfp(obs(0)) && obs(Attempts(obs)) == obs(0)
  }

  /** The actions of `umount(path)` when it issues `n` commands: the
      initial reading, then a command and a reading per attempt. */
  function UmountLog(path: string, n: nat): seq<Action>
  {
    if n == 0 then [Probe(path)] else UmountLog(path, n - 1) + [Shell(UnmountPath(path)), Probe(path)]
  }

  /** The log of `n` attempts alternates readings and commands: it starts
      and ends with a reading and holds `n` `umount` commands between. */
  lemma {:induction false} UmountLogShape(path: string, n: nat)
    ensures |UmountLog(path, n)| == 1 + 2 * n && UmountLog(path, n)[0] == Probe(path)
    ensures forall k :: 0 <= k < n ==>
      UmountLog(path, n)[1 + 2 * k] == Shell(UnmountPath(path)) && UmountLog(path, n)[2 + 2 * k] == Probe(path)
  {
    if n > 0 {
      UmountLogShape(path, n - 1);
    }
  }

  /** Proof step for `Umount`'s loop: one more attempt adds a command and
      a reading to the log. */
  lemma UmountLogStep(log0: seq<Action>, path: string, c: nat)
    ensures log0 + UmountLog(path, c) + [Shell(UnmountPath(path))] + [Probe(path)] == log0 + UmountLog(path, c + 1)
  {
    AppendAssoc(log0, UmountLog(path, c), [Shell(UnmountPath(path)), Probe(path)]);
  }

  /** The number of attempts is determined by the readings: it is the
      first attempt after which the reading changed, or the bound. */
  lemma {:induction false} AttemptsFromIsFirstChange(obs: nat -> Option<string>, c: nat, n: nat)
    requires c < n <= MaxAttempts
    requires forall k :: c < k < n ==> obs(k) == obs(0)
    requires n < MaxAttempts ==> obs(n) != obs(0)
    ensures AttemptsFrom(obs, c) == n
    decreases MaxAttempts - c
  {
    if obs(c + 1) == obs(0) && c + 1 < MaxAttempts {
      AttemptsFromIsFirstChange(obs, c + 1, n);
    }
  }

  /** `umount` raises exactly when the path is AFP-backed and all five
      readings after the five commands still equal the initial one. */
  lemma FailsIffNeverChanged(obs: nat -> Option<string>)
    ensures Fails(obs) <==> IsAfp(obs(0)) && forall k :: 1 <= k <= MaxAttempts ==> obs(k) == obs(0)
  {
    if IsAfp(obs(0)) && forall k :: 1 <= k <= MaxAttempts ==> obs(k) == obs(0) {
      AttemptsFromIsFirstChange(obs, 0, MaxAttempts);
    }
  }

  /** `umount` returns normally as soon as a reading differs from the
      initial one; the Ruby counter `c` is then `n - 1`, below the bound. */
  lemma {:induction false} SucceedsOnFirstChange(obs: nat -> Option<string>, n: nat)
    requires IsAfp(obs(0))
    requires 1 <= n <= MaxAttempts
    requires forall k :: 1 <= k < n ==> obs(k) == obs(0)
    requires obs(n) != obs(0)
    ensures Attempts(obs) == n && !Fails(obs) && n - 1 < MaxAttempts
  {
    AttemptsFromIsFirstChange(obs, 0, n);
  }

  /** `umount(path)`. */
  method Umount(world: World, path: string) returns (r: Outcome, ghost n: nat)
    modifies world`probes, world`log
    ensures n <= MaxAttempts
    ensures world.probes == old(world.probes) + 1 + n
    ensures world.log == old(world.log) + UmountLog(path, n)
    ensures n == Attempts(world.Observations(path, old(world.probes)))
    ensures r.Fail? <==> Fails(world.Observations(path, old(world.probes)))
    ensures r.Fail? ==> r.error == UnableToUnmount
  {
    ghost var obs := world.Observations(path, world.probes);
    ghost var t0, log0 := world.probes, world.log;
    var filesystemInitial := world.Filesystem(path);
    var filesystem := filesystemInitial;
    var c: nat := 0;
    ghost var issued: nat := 0;
    while c < MaxAttempts
      invariant c <= MaxAttempts && issued == c
      invariant filesystem == filesystemInitial == obs(0)
      invariant c > 0 ==> IsAfp(obs(0))
      invariant forall k :: 1 <= k <= c ==> obs(k) == obs(0)
      invariant world.probes == t0 + 1 + c
      invariant world.log == log0 + UmountLog(path, c)
    {
      if !IsAfp(filesystem) {
        break;
      }
      world.Run(UnmountPath(path));
      // `sleep 1`: timing only
      filesystem := world.Filesystem(path);
      UmountLogStep(log0, path, c);
      issued := c + 1;
      if filesystem != filesystemInitial {
        break;
      }
      c := c + 1;
    }
    if IsAfp(obs(0)) {
      AttemptsFromIsFirstChange(obs, 0, issued);
    }
    n := issued;
    if c < MaxAttempts {
      r := Pass;
    } else {
      r := Fail(UnableToUnmount);
    }
  }
}
