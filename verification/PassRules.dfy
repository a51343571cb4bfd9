/** What the workers' passes do to the rows they visit, read off the rows' statuses before and after each
    visit rather than from the flags the passes keep. */
module PassRules {
  import opened Prelude
  import opened MintProtocol
  import opened Actors

  datatype Pass = First | Second

  /** The row an action concerns, if it concerns one. */
  function KeyOf(a: Action): string {
    if a.RetryRow? || a.MarkSigned? || a.Sign? || a.BroadcastRow? || a.SetRetry? || a.ValidateRow? then a.key else ""
  }

  /** A visit left its row as it should: submitted, or in the second pass confirmed. */
  predicate Fine(p: Pass, s: State, key: string) {
    Is(s, key, Submitted) || (p.Second? && Is(s, key, Confirmed))
  }

  /** Every one of the actions left its row fine. */
  predicate Smooth(p: Pass, cfg: Config, s: State, actions: seq<Action>)
    decreases |actions|
  {
    actions == [] ||
    var s1 := Next(cfg, s, actions[0]);
    Fine(p, s1, KeyOf(actions[0])) && Smooth(p, cfg, s1, actions[1..])
  }

  /** Each action is more than sending a row back if and only if all before it went smoothly. */
  ghost predicate Flagged(p: Pass, cfg: Config, s: State, pass: seq<Action>, failed: bool) {
    forall i :: 0 <= i < |pass| ==> (!pass[i].SetRetry? <==> !failed && Smooth(p, cfg, s, pass[..i]))
  }

  lemma FlaggedCons(p: Pass, cfg: Config, s: State, a: Action, rest: seq<Action>, failed: bool)
    requires !a.SetRetry? <==> !failed
    requires Flagged(p, cfg, Next(cfg, s, a), rest, failed || !Fine(p, Next(cfg, s, a), KeyOf(a)))
    ensures Flagged(p, cfg, s, [a] + rest, failed)
  {
    hide Next, Fine;
    var pass := [a] + rest;
    forall i | 0 <= i < |pass| ensures !pass[i].SetRetry? <==> !failed && Smooth(p, cfg, s, pass[..i]) {
      if i > 0 {
        assert pass[..i][1..] == rest[..i - 1];
        assert pass[i] == rest[i - 1];
      }
    }
  }

  lemma RunCons(cfg: Config, s: State, a: Action, rest: seq<Action>)
    ensures Run(cfg, s, [a] + rest) == Run(cfg, Next(cfg, s, a), rest)
  {
    hide Next;
    assert [a][..0] == [];
    assert Run(cfg, s, [a]) == Next(cfg, s, a);
    RunAppend(cfg, s, [a], rest);
  }

  /** A visit touches no other row. */
  lemma OthersAside(cfg: Config, s: State, a: Action, other: string)
    requires (a.SetRetry? || a.ValidateRow? || a.BroadcastRow?) && a.key != other
    ensures other in Next(cfg, s, a).rows <==> other in s.rows
    ensures other in s.rows ==> Next(cfg, s, a).rows[other] == s.rows[other]
  {
    hide SignaturesOf;
    match a {
      case SetRetry(_) =>
      case ValidateRow(_, _) =>
      case BroadcastRow(_, _) =>
    }
  }

  lemma RetryEnds(p: Pass, cfg: Config, s: State, key: string)
    requires IsEthereum(s, key, Submitted) || IsEthereum(s, key, Signed)
    ensures Is(Next(cfg, s, SetRetry(key)), key, Status.Retry) && !Fine(p, Next(cfg, s, SetRetry(key)), key)
  {
  }

  // ---- The leader's second pass ----

  function SecondVisit(c: Check, failed: bool): Action {
    if failed then SetRetry(c.key) else ValidateRow(c.key, c.reply)
  }

  /** A validation lets the pass go on if and only if it leaves the row submitted or confirmed. */
  lemma ValidatesMeans(s: State, key: string, reply: Reply)
    requires IsEthereum(s, key, Submitted)
    ensures Validates(s, key, reply) <==> Fine(Second, ValidateStep(s, key, reply), key)
  {
  }

  lemma SecondUnfold(cfg: Config, s: State, checks: seq<Check>, failed: bool)
    requires checks != []
    ensures if IsEthereum(s, checks[0].key, Submitted) then
              var s1 := Next(cfg, s, SecondVisit(checks[0], failed));
              SubmittedPass(cfg, s, checks, failed) ==
                [SecondVisit(checks[0], failed)] +
                SubmittedPass(cfg, s1, checks[1..], failed || !Fine(Second, s1, checks[0].key))
            else SubmittedPass(cfg, s, checks, failed) == SubmittedPass(cfg, s, checks[1..], failed)
  {
    if IsEthereum(s, checks[0].key, Submitted) {
      ValidatesMeans(s, checks[0].key, checks[0].reply);
    }
    hide Validates, ValidateStep, SetRetryStep, Fine;
  }

  lemma {:induction false} SecondFlagged(cfg: Config, s: State, checks: seq<Check>, failed: bool)
    ensures Flagged(Second, cfg, s, SubmittedPass(cfg, s, checks, failed), failed)
    decreases |checks|
  {
    hide SubmittedPass, Next, IsEthereum, Fine, Flagged;
    if checks == [] {
      SubmittedPassEnd(cfg, s, checks, failed);
      NothingFlagged(Second, cfg, s, failed);
    } else {
      SecondUnfold(cfg, s, checks, failed);
      if IsEthereum(s, checks[0].key, Submitted) {
        var a := SecondVisit(checks[0], failed);
        var s1 := Next(cfg, s, a);
        var failed1 := failed || !Fine(Second, s1, a.key);
        SecondFlagged(cfg, s1, checks[1..], failed1);
        FlaggedCons(Second, cfg, s, a, SubmittedPass(cfg, s1, checks[1..], failed1), failed);
      } else {
        SecondFlagged(cfg, s, checks[1..], failed);
      }
    }
  }

  lemma {:induction false} SecondLeaves(cfg: Config, s: State, checks: seq<Check>, failed: bool, key: string)
    requires key in s.rows && !IsEthereum(s, key, Submitted)
    ensures var s' := Run(cfg, s, SubmittedPass(cfg, s, checks, failed)); key in s'.rows && s'.rows[key] == s.rows[key]
    decreases |checks|
  {
    hide SubmittedPass, Next, Run, Fine;
    if checks == [] {
      SubmittedPassEnd(cfg, s, checks, failed);
      RunNothing(cfg, s);
    } else {
      SecondUnfold(cfg, s, checks, failed);
      if IsEthereum(s, checks[0].key, Submitted) {
        var a := SecondVisit(checks[0], failed);
        var s1 := Next(cfg, s, a);
        var failed1 := failed || !Fine(Second, s1, a.key);
        OthersAside(cfg, s, a, key);
        SecondLeaves(cfg, s1, checks[1..], failed1, key);
        RunCons(cfg, s, a, SubmittedPass(cfg, s1, checks[1..], failed1));
      } else {
        SecondLeaves(cfg, s, checks[1..], failed, key);
      }
    }
  }

  lemma {:induction false} SecondSendsBack(cfg: Config, s: State, checks: seq<Check>, failed: bool, a: Action)
    requires a in SubmittedPass(cfg, s, checks, failed)
    ensures a.SetRetry? || a.ValidateRow?
    ensures IsEthereum(s, a.key, Submitted)
    ensures a.ValidateRow? ==> Check(a.key, a.reply) in checks
    ensures exists c <- checks :: c.key == a.key
    ensures a.SetRetry? ==> Is(Run(cfg, s, SubmittedPass(cfg, s, checks, failed)), a.key, Status.Retry)
    decreases |checks|
  {
    hide SubmittedPass, Next, Run, Fine;
    if checks == [] {
      SubmittedPassEnd(cfg, s, checks, failed);
    } else {
      assert checks == [checks[0]] + checks[1..];
      SecondUnfold(cfg, s, checks, failed);
      if IsEthereum(s, checks[0].key, Submitted) {
        var first := SecondVisit(checks[0], failed);
        var s1 := Next(cfg, s, first);
        var failed1 := failed || !Fine(Second, s1, first.key);
        var rest := SubmittedPass(cfg, s1, checks[1..], failed1);
        RunCons(cfg, s, first, rest);
        if a in rest {
          SecondSendsBack(cfg, s1, checks[1..], failed1, a);
          if a.key != first.key {
            OthersAside(cfg, s, first, a.key);
          }
        } else {
          assert a == first;
          if a.SetRetry? {
            RetryEnds(Second, cfg, s, a.key);
            SecondLeaves(cfg, s1, checks[1..], failed1, a.key);
          }
        }
      } else {
        SecondSendsBack(cfg, s, checks[1..], failed, a);
      }
    }
  }

  lemma {:induction false} SecondCovers(cfg: Config, s: State, checks: seq<Check>, failed: bool, key: string)
    requires IsEthereum(s, key, Submitted) && exists c <- checks :: c.key == key
    ensures exists a <- SubmittedPass(cfg, s, checks, failed) :: KeyOf(a) == key
    decreases |checks|
  {
    hide SubmittedPass, Next, Fine;
    assert checks == [checks[0]] + checks[1..];
    SecondUnfold(cfg, s, checks, failed);
    if IsEthereum(s, checks[0].key, Submitted) {
      var first := SecondVisit(checks[0], failed);
      var s1 := Next(cfg, s, first);
      var failed1 := failed || !Fine(Second, s1, first.key);
      var rest := SubmittedPass(cfg, s1, checks[1..], failed1);
      if first.key == key {
        assert first in [first] + rest;
      } else {
        OthersAside(cfg, s, first, key);
        SecondCovers(cfg, s1, checks[1..], failed1, key);
        var a :| a in rest && KeyOf(a) == key;
        assert a in [first] + rest;
      }
    } else {
      SecondCovers(cfg, s, checks[1..], failed, key);
    }
  }

  lemma NothingFlagged(p: Pass, cfg: Config, s: State, failed: bool)
    ensures Flagged(p, cfg, s, [], failed)
  {
  }

  /** The leader's second pass, from the rows alone. It visits exactly the submitted rows of its list. A
      visit looks at the row's transaction if and only if every row visited before ended submitted or
      confirmed; from the first that did not, all further rows are sent back unseen and end `Retry`. */
  lemma SecondPassExactly(cfg: Config, s: State, checks: seq<Check>)
    ensures var pass := SubmittedPass(cfg, s, checks, false);
            && (forall key :: (exists a <- pass :: KeyOf(a) == key) <==>
                                IsEthereum(s, key, Submitted) && exists c <- checks :: c.key == key)
            && (forall i :: 0 <= i < |pass| ==>
                  if Smooth(Second, cfg, s, pass[..i])
                  then pass[i].ValidateRow? && Check(pass[i].key, pass[i].reply) in checks
                  else pass[i].SetRetry? && Is(Run(cfg, s, pass), pass[i].key, Status.Retry))
  {
    hide SubmittedPass, Next, Run, Fine, IsEthereum, Smooth;
    SecondFlagged(cfg, s, checks, false);
    var pass := SubmittedPass(cfg, s, checks, false);
    forall key
      ensures (exists a <- pass :: KeyOf(a) == key) <==>
                IsEthereum(s, key, Submitted) && exists c <- checks :: c.key == key
    {
      if a :| a in pass && KeyOf(a) == key {
        SecondSendsBack(cfg, s, checks, false, a);
      }
      if IsEthereum(s, key, Submitted) && exists c <- checks :: c.key == key {
        SecondCovers(cfg, s, checks, false, key);
      }
    }
    forall i | 0 <= i < |pass|
      ensures if Smooth(Second, cfg, s, pass[..i])
              then pass[i].ValidateRow? && Check(pass[i].key, pass[i].reply) in checks
              else pass[i].SetRetry? && Is(Run(cfg, s, pass), pass[i].key, Status.Retry)
    {
      SecondSendsBack(cfg, s, checks, false, pass[i]);
    }
  }

  // ---- The leader's first pass ----

  function FirstVisit(a: Attempt, failed: bool): Action {
    if failed then SetRetry(a.key) else BroadcastRow(a.key, a.delivery)
  }

  /** The broadcast went out and its row does not know. */
  predicate Astray(s: State, s': State, key: string) {
    |s'.broadcasts| > |s.broadcasts| && Is(s', key, Signed)
  }

  /** An error escapes from a broadcast attempt if and only if the broadcast went out and the row is still
      signed. */
  lemma EscapesMeans(cfg: Config, s: State, key: string, delivery: Delivery)
    requires IsEthereum(s, key, Signed)
    ensures Escapes(cfg, s, key, delivery) <==> Astray(s, BroadcastStep(cfg, s, key, delivery), key)
  {
    hide SignaturesOf;
  }

  lemma FirstUnfold(cfg: Config, s: State, attempts: seq<Attempt>, failed: bool)
    requires attempts != []
    ensures if IsEthereum(s, attempts[0].key, Signed) then
              var s1 := Next(cfg, s, FirstVisit(attempts[0], failed));
              SignedPass(cfg, s, attempts, failed) ==
                [FirstVisit(attempts[0], failed)] +
                if !failed && Astray(s, s1, attempts[0].key) then []
                else SignedPass(cfg, s1, attempts[1..], failed || !Fine(First, s1, attempts[0].key))
            else SignedPass(cfg, s, attempts, failed) == SignedPass(cfg, s, attempts[1..], failed)
  {
    if IsEthereum(s, attempts[0].key, Signed) {
      EscapesMeans(cfg, s, attempts[0].key, attempts[0].delivery);
    }
    hide Escapes, BroadcastStep, SetRetryStep, Astray;
  }

  lemma {:induction false} FirstFlagged(cfg: Config, s: State, attempts: seq<Attempt>, failed: bool)
    ensures Flagged(First, cfg, s, SignedPass(cfg, s, attempts, failed), failed)
    decreases |attempts|
  {
    hide SignedPass, Next, IsEthereum, Fine, Flagged, Astray;
    if attempts == [] {
      SignedPassEnd(cfg, s, attempts, failed);
      NothingFlagged(First, cfg, s, failed);
    } else {
      FirstUnfold(cfg, s, attempts, failed);
      if IsEthereum(s, attempts[0].key, Signed) {
        var a := FirstVisit(attempts[0], failed);
        var s1 := Next(cfg, s, a);
        var failed1 := failed || !Fine(First, s1, a.key);
        if !failed && Astray(s, s1, a.key) {
          NothingFlagged(First, cfg, s1, failed1);
          FlaggedCons(First, cfg, s, a, [], failed);
        } else {
          FirstFlagged(cfg, s1, attempts[1..], failed1);
          FlaggedCons(First, cfg, s, a, SignedPass(cfg, s1, attempts[1..], failed1), failed);
        }
      } else {
        FirstFlagged(cfg, s, attempts[1..], failed);
      }
    }
  }

  lemma {:induction false} FirstLeaves(cfg: Config, s: State, attempts: seq<Attempt>, failed: bool, key: string)
    requires key in s.rows && !IsEthereum(s, key, Signed)
    ensures var s' := Run(cfg, s, SignedPass(cfg, s, attempts, failed)); key in s'.rows && s'.rows[key] == s.rows[key]
    decreases |attempts|
  {
    hide SignedPass, Next, Run, Fine, Astray;
    if attempts == [] {
      SignedPassEnd(cfg, s, attempts, failed);
      RunNothing(cfg, s);
    } else {
      FirstUnfold(cfg, s, attempts, failed);
      if IsEthereum(s, attempts[0].key, Signed) {
        var a := FirstVisit(attempts[0], failed);
        var s1 := Next(cfg, s, a);
        var failed1 := failed || !Fine(First, s1, a.key);
        OthersAside(cfg, s, a, key);
        FirstLeaves(cfg, s1, attempts[1..], failed1, key);
        RunCons(cfg, s, a, SignedPass(cfg, s1, attempts[1..], failed1));
        RunCons(cfg, s, a, []);
        RunNothing(cfg, s1);
      } else {
        FirstLeaves(cfg, s, attempts[1..], failed, key);
      }
    }
  }

  lemma {:induction false} FirstSendsBack(cfg: Config, s: State, attempts: seq<Attempt>, failed: bool, a: Action)
    requires a in SignedPass(cfg, s, attempts, failed)
    ensures a.SetRetry? || a.BroadcastRow?
    ensures IsEthereum(s, a.key, Signed)
    ensures a.BroadcastRow? ==> Attempt(a.key, a.delivery) in attempts
    ensures exists x <- attempts :: x.key == a.key
    ensures a.SetRetry? ==> Is(Run(cfg, s, SignedPass(cfg, s, attempts, failed)), a.key, Status.Retry)
    decreases |attempts|
  {
    hide SignedPass, Next, Run, Fine, Astray;
    if attempts == [] {
      SignedPassEnd(cfg, s, attempts, failed);
    } else {
      assert attempts == [attempts[0]] + attempts[1..];
      FirstUnfold(cfg, s, attempts, failed);
      if IsEthereum(s, attempts[0].key, Signed) {
        var first := FirstVisit(attempts[0], failed);
        var s1 := Next(cfg, s, first);
        var failed1 := failed || !Fine(First, s1, first.key);
        var rest := SignedPass(cfg, s1, attempts[1..], failed1);
        RunCons(cfg, s, first, rest);
        if a == first {
          if a.SetRetry? {
            RetryEnds(First, cfg, s, a.key);
            FirstLeaves(cfg, s1, attempts[1..], failed1, a.key);
          }
        } else {
          FirstSendsBack(cfg, s1, attempts[1..], failed1, a);
          if a.key != first.key {
            OthersAside(cfg, s, first, a.key);
          }
        }
      } else {
        FirstSendsBack(cfg, s, attempts[1..], failed, a);
      }
    }
  }

  /** An error nobody catches can only come of a sent broadcast whose reply is not read. */
  lemma AstrayUnread(cfg: Config, s: State, key: string, delivery: Delivery)
    requires IsEthereum(s, key, Signed) && Astray(s, Next(cfg, s, BroadcastRow(key, delivery)), key)
    ensures delivery.SentUnread?
  {
    hide SignaturesOf;
  }

  predicate Unread(a: Action) {
    a.BroadcastRow? && a.delivery.SentUnread?
  }

  lemma {:induction false} FirstCovers(cfg: Config, s: State, attempts: seq<Attempt>, failed: bool, key: string)
    requires IsEthereum(s, key, Signed) && exists x <- attempts :: x.key == key
    requires forall a <- SignedPass(cfg, s, attempts, failed) :: !Unread(a)
    ensures exists a <- SignedPass(cfg, s, attempts, failed) :: KeyOf(a) == key
    decreases |attempts|
  {
    hide SignedPass, Next, Fine, Astray;
    assert attempts == [attempts[0]] + attempts[1..];
    FirstUnfold(cfg, s, attempts, failed);
    if IsEthereum(s, attempts[0].key, Signed) {
      var first := FirstVisit(attempts[0], failed);
      var s1 := Next(cfg, s, first);
      var failed1 := failed || !Fine(First, s1, first.key);
      var rest := SignedPass(cfg, s1, attempts[1..], failed1);
      assert first in SignedPass(cfg, s, attempts, failed);
      if first.key != key {
        if !failed && Astray(s, s1, first.key) {
          AstrayUnread(cfg, s, first.key, attempts[0].delivery);
        }
        assert SignedPass(cfg, s, attempts, failed) == [first] + rest;
        assert forall a <- rest :: a in [first] + rest;
        OthersAside(cfg, s, first, key);
        FirstCovers(cfg, s1, attempts[1..], failed1, key);
        var a :| a in rest && KeyOf(a) == key;
        assert a in [first] + rest;
      }
    } else {
      FirstCovers(cfg, s, attempts[1..], failed, key);
    }
  }

  lemma RunPrefix(cfg: Config, s: State, a: Action, rest: seq<Action>, k: nat)
    requires k <= |rest|
    ensures Run(cfg, s, ([a] + rest)[..k + 1]) == Run(cfg, Next(cfg, s, a), rest[..k])
  {
    hide Next, Run;
    assert ([a] + rest)[..k + 1] == [a] + rest[..k];
    RunCons(cfg, s, a, rest[..k]);
  }

  lemma {:induction false} FirstStops(cfg: Config, s: State, attempts: seq<Attempt>, failed: bool, i: nat)
    requires var pass := SignedPass(cfg, s, attempts, failed); i < |pass| && pass[i].BroadcastRow?
    requires var pass := SignedPass(cfg, s, attempts, failed);
             var before := Run(cfg, s, pass[..i]);
             Astray(before, Next(cfg, before, pass[i]), KeyOf(pass[i]))
    ensures i == |SignedPass(cfg, s, attempts, failed)| - 1
    decreases |attempts|
  {
    hide SignedPass, Next, Run, Fine, Astray, IsEthereum;
    var pass := SignedPass(cfg, s, attempts, failed);
    if attempts == [] {
      SignedPassEnd(cfg, s, attempts, failed);
      assert false;
    } else {
      FirstUnfold(cfg, s, attempts, failed);
      if IsEthereum(s, attempts[0].key, Signed) {
        var first := FirstVisit(attempts[0], failed);
        var s1 := Next(cfg, s, first);
        var failed1 := failed || !Fine(First, s1, first.key);
        var rest := SignedPass(cfg, s1, attempts[1..], failed1);
        if i == 0 {
          assert pass[..0] == [];
          RunNothing(cfg, s);
        } else {
          RunPrefix(cfg, s, first, rest, i - 1);
          FirstStops(cfg, s1, attempts[1..], failed1, i - 1);
        }
      } else {
        FirstStops(cfg, s, attempts[1..], failed, i);
      }
    }
  }

  /** The leader's first pass, from the rows alone. It visits only signed rows of its list, and all of them
      unless a reply is not read. A visit broadcasts its row if and only if every row visited before
      became submitted; from the first that did not, all further rows are sent back and end `Retry`.
      After a broadcast its row never learned of, there is no further visit. */
  lemma FirstPassExactly(cfg: Config, s: State, attempts: seq<Attempt>)
    ensures var pass := SignedPass(cfg, s, attempts, false);
            && (forall a <- pass :: IsEthereum(s, KeyOf(a), Signed) && exists x <- attempts :: x.key == KeyOf(a))
            && ((forall a <- pass :: !Unread(a)) ==>
                  forall key :: IsEthereum(s, key, Signed) && (exists x <- attempts :: x.key == key) ==>
                                  exists a <- pass :: KeyOf(a) == key)
            && (forall i :: 0 <= i < |pass| ==>
                  if Smooth(First, cfg, s, pass[..i])
                  then pass[i].BroadcastRow? && Attempt(pass[i].key, pass[i].delivery) in attempts
                  else pass[i].SetRetry? && Is(Run(cfg, s, pass), pass[i].key, Status.Retry))
            && (forall i :: 0 <= i < |pass| - 1 && pass[i].BroadcastRow? ==>
                  var before := Run(cfg, s, pass[..i]); !Astray(before, Next(cfg, before, pass[i]), KeyOf(pass[i])))
  {
    hide SignedPass, Next, Run, Fine, IsEthereum, Smooth, Astray;
    FirstFlagged(cfg, s, attempts, false);
    var pass := SignedPass(cfg, s, attempts, false);
    forall a | a in pass ensures IsEthereum(s, KeyOf(a), Signed) && exists x <- attempts :: x.key == KeyOf(a) {
      FirstSendsBack(cfg, s, attempts, false, a);
    }
    if forall a <- pass :: !Unread(a) {
      forall key | IsEthereum(s, key, Signed) && exists x <- attempts :: x.key == key
        ensures exists a <- pass :: KeyOf(a) == key
      {
        FirstCovers(cfg, s, attempts, false, key);
      }
    }
    forall i | 0 <= i < |pass|
      ensures if Smooth(First, cfg, s, pass[..i])
              then pass[i].BroadcastRow? && Attempt(pass[i].key, pass[i].delivery) in attempts
              else pass[i].SetRetry? && Is(Run(cfg, s, pass), pass[i].key, Status.Retry)
    {
      FirstSendsBack(cfg, s, attempts, false, pass[i]);
    }
    forall i | 0 <= i < |pass| - 1 && pass[i].BroadcastRow?
      ensures var before := Run(cfg, s, pass[..i]); !Astray(before, Next(cfg, before, pass[i]), KeyOf(pass[i]))
    {
      var before := Run(cfg, s, pass[..i]);
      if Astray(before, Next(cfg, before, pass[i]), KeyOf(pass[i])) {
        FirstStops(cfg, s, attempts, false, i);
      }
    }
  }

  // ---- A signer's turn ----

  /** The row did not wait for a signature, or has this signer's after the visit. */
  predicate Served(s: State, s': State, key: string, signer: string) {
    !Is(s, key, Unsigned) || HasSigned(s', key, signer)
  }

  lemma SignsMeans(s: State, key: string, signer: string, works: bool, saves: bool)
    ensures Signs(s, key, signer, works, saves) <==> Served(s, SignStep(s, key, signer, works, saves), key, signer)
  {
    hide Verify;
    var s' := SignStep(s, key, signer, works, saves);
    if s'.signatures != s.signatures {
      assert s'.signatures[|s.signatures|] in s'.signatures;
    }
  }

  lemma SignerUnfold(cfg: Config, s: State, signer: string, visits: seq<Visit>)
    requires visits != []
    ensures var v := visits[0];
            var a := Sign(v.key, signer, v.cliWorks, v.saves);
            var s1 := Next(cfg, s, a);
            SignerPass(cfg, s, signer, visits) ==
              [a] + if Served(s, s1, v.key, signer) then SignerPass(cfg, s1, signer, visits[1..]) else []
  {
    SignsMeans(s, visits[0].key, signer, visits[0].cliWorks, visits[0].saves);
    hide Signs, SignStep, Served;
  }

  /** A signer's turn, from rows and signatures alone: it visits the rows of its list in order, and stops
      after the first that waited for a signature and did not get it, and only there. */
  lemma {:induction false} SignerPassExactly(cfg: Config, s: State, signer: string, visits: seq<Visit>, i: nat)
    requires i < |SignerPass(cfg, s, signer, visits)|
    ensures var pass := SignerPass(cfg, s, signer, visits);
            && |pass| <= |visits|
            && pass[i] == Sign(visits[i].key, signer, visits[i].cliWorks, visits[i].saves)
            && var before := Run(cfg, s, pass[..i]);
               var served := Served(before, Next(cfg, before, pass[i]), visits[i].key, signer);
               && (i < |pass| - 1 ==> served)
               && (i == |pass| - 1 && |pass| < |visits| ==> !served)
    decreases |visits|
  {
    hide SignerPass, Next, Run, Served;
    var pass := SignerPass(cfg, s, signer, visits);
    if visits == [] {
      SignerPassEnd(cfg, s, signer, visits);
      assert false;
    } else {
      SignerUnfold(cfg, s, signer, visits);
      var a := pass[0];
      var s1 := Next(cfg, s, a);
      var rest := pass[1..];
      assert pass == [a] + rest;
      assert pass[..0] == [];
      RunNothing(cfg, s);
      if i > 0 {
        RunPrefix(cfg, s, a, rest, i - 1);
        SignerPassExactly(cfg, s1, signer, visits[1..], i - 1);
      } else if rest != [] {
        SignerPassExactly(cfg, s1, signer, visits[1..], 0);
      } else if Served(s, s1, visits[0].key, signer) && |visits| > 1 {
        SignerStarts(cfg, s1, signer, visits[1..]);
      }
    }
  }

  lemma SignerStarts(cfg: Config, s: State, signer: string, visits: seq<Visit>)
    requires visits != []
    ensures SignerPass(cfg, s, signer, visits) != []
  {
    SignerUnfold(cfg, s, signer, visits);
  }

  // ---- The manager's turn ----

  lemma {:induction false} RetriesClear(cfg: Config, s: State, keys: seq<string>, key: string)
    requires key in keys || !Is(s, key, Status.Retry)
    ensures !Is(Run(cfg, s, Retries(keys)), key, Status.Retry)
  {
    hide Next, Run, Deleted;
    if keys == [] {
      assert Retries(keys) == [];
      RunNothing(cfg, s);
    } else {
      var front, last := keys[..|keys| - 1], keys[|keys| - 1];
      assert keys == front + [last];
      assert Retries(keys)[..|front|] == Retries(front) && Retries(keys)[..|keys|] == Retries(keys);
      RunSnoc(cfg, s, Retries(keys), |front|);
      var s1 := Run(cfg, s, Retries(front));
      if key in front || !Is(s, key, Status.Retry) {
        RetriesClear(cfg, s, front, key);
      }
      RetryClears(cfg, s1, last, key);
    }
  }

  lemma RetryClears(cfg: Config, s: State, key: string, other: string)
    ensures var s' := Next(cfg, s, RetryRow(key));
            !Is(s', key, Status.Retry) && (!Is(s, other, Status.Retry) ==> !Is(s', other, Status.Retry))
  {
    hide Deleted;
  }

  /** A row waiting with all its signatures. */
  predicate Complete(cfg: Config, s: State, key: string) {
    Is(s, key, Unsigned) && |SignaturesOf(s.signatures, key)| >= cfg.threshold
  }

  lemma MarkCompletes(cfg: Config, s: State, key: string, other: string)
    ensures var s' := Next(cfg, s, MarkSigned(key));
            !Complete(cfg, s', key) && (!Complete(cfg, s, other) ==> !Complete(cfg, s', other))
  {
    hide SignaturesOf;
  }

  lemma {:induction false} MarksClear(cfg: Config, s: State, keys: seq<string>, key: string)
    requires key in keys || !Complete(cfg, s, key)
    ensures !Complete(cfg, Run(cfg, s, Marks(keys)), key)
  {
    hide Next, Run, Complete;
    if keys == [] {
      assert Marks(keys) == [];
      RunNothing(cfg, s);
    } else {
      var front, last := keys[..|keys| - 1], keys[|keys| - 1];
      assert keys == front + [last] && Marks(keys)[..|front|] == Marks(front) && Marks(keys)[..|keys|] == Marks(keys);
      RunSnoc(cfg, s, Marks(keys), |front|);
      var s1 := Run(cfg, s, Marks(front));
      if key in front || !Complete(cfg, s, key) {
        MarksClear(cfg, s, front, key);
      }
      MarkCompletes(cfg, s1, last, key);
    }
  }

  lemma {:induction false} MarksNoRetry(cfg: Config, s: State, keys: seq<string>, key: string)
    requires !Is(s, key, Status.Retry)
    ensures !Is(Run(cfg, s, Marks(keys)), key, Status.Retry)
  {
    hide Next, Run;
    if keys == [] {
      assert Marks(keys) == [];
      RunNothing(cfg, s);
    } else {
      var front, last := keys[..|keys| - 1], keys[|keys| - 1];
      assert Marks(keys)[..|front|] == Marks(front) && Marks(keys)[..|keys|] == Marks(keys);
      RunSnoc(cfg, s, Marks(keys), |front|);
      MarksNoRetry(cfg, s, front, key);
      MarkNoRetry(cfg, Run(cfg, s, Marks(front)), last, key);
    }
  }

  lemma MarkNoRetry(cfg: Config, s: State, key: string, other: string)
    requires !Is(s, other, Status.Retry)
    ensures !Is(Next(cfg, s, MarkSigned(key)), other, Status.Retry)
  {
    hide SignaturesOf;
  }

  /** After the manager's turn no row of its first list waits to be retried, and no row of its second list
      waits unsigned with enough signatures. */
  lemma ManagerTurn(cfg: Config, s: State, retries: seq<string>, unsigned: seq<string>)
    ensures var s' := Run(cfg, s, Retries(retries) + Marks(unsigned));
            && (forall key <- retries :: !Is(s', key, Status.Retry))
            && (forall key <- unsigned :: !Complete(cfg, s', key))
  {
    hide Next, Run, Complete;
    RunAppend(cfg, s, Retries(retries), Marks(unsigned));
    var s1 := Run(cfg, s, Retries(retries));
    forall key | key in retries ensures !Is(Run(cfg, s1, Marks(unsigned)), key, Status.Retry) {
      RetriesClear(cfg, s, retries, key);
      MarksNoRetry(cfg, s1, unsigned, key);
    }
    forall key | key in unsigned ensures !Complete(cfg, Run(cfg, s1, Marks(unsigned)), key) {
      MarksClear(cfg, s1, unsigned, key);
    }
  }
}
