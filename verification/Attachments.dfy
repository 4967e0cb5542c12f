// The names of attachment files: chat id and stamp printed one after the other.
module Attachments {
  import opened Tables
  import opened TableInvariant
  import opened System
  import opened SessionInvariant

  function Digit(d: nat): char
    requires d < 10
  {
    '0' + d as char
  }

  /** sprintf's %d for a number that is not negative. */
  function Decimal(n: nat): (s: string)
    ensures s != []
  {
    if n < 10 then [Digit(n)] else Decimal(n / 10) + [Digit(n % 10)]
  }

  /** create_file_path, create_file_path_snd and create_file_path_rcv */
  function FilePath(dir: string, chat: nat, ts: nat): string {
    dir + "/_" + (Decimal(chat) + Decimal(ts))
  }

  lemma OneDigit(n: nat)
    ensures |Decimal(n)| == 1 <==> n < 10
  {
  }

  lemma {:induction false} DecimalInjective(a: nat, b: nat)
    requires Decimal(a) == Decimal(b)
    ensures a == b
  {
    var x, y := Decimal(a), Decimal(b);
    OneDigit(a);
    OneDigit(b);
    assert x[|x| - 1] == Digit(a % 10) && y[|y| - 1] == Digit(b % 10);
    if a >= 10 {
      assert x[..|x| - 1] == Decimal(a / 10) && y[..|y| - 1] == Decimal(b / 10);
      DecimalInjective(a / 10, b / 10);
    }
  }

  lemma SamePath(dir: string, c1: nat, t1: nat, c2: nat, t2: nat)
    ensures FilePath(dir, c1, t1) == FilePath(dir, c2, t2) <==> Decimal(c1) + Decimal(t1) == Decimal(c2) + Decimal(t2)
  {
    var k := |dir + "/_"|;
    assert FilePath(dir, c1, t1)[k..] == Decimal(c1) + Decimal(t1);
    assert FilePath(dir, c2, t2)[k..] == Decimal(c2) + Decimal(t2);
  }

  /** With stamps of equally many digits, the name determines chat and stamp. */
  lemma PathInjective(dir: string, c1: nat, t1: nat, c2: nat, t2: nat)
    requires |Decimal(t1)| == |Decimal(t2)| && FilePath(dir, c1, t1) == FilePath(dir, c2, t2)
    ensures c1 == c2 && t1 == t2
  {
    SamePath(dir, c1, t1, c2, t2);
    var s, k := Decimal(c1) + Decimal(t1), |Decimal(c1)|;
    assert s[..k] == Decimal(c1) && s[k..] == Decimal(t1);
    assert s[..k] == Decimal(c2) && s[k..] == Decimal(t2);
    DecimalInjective(c1, c2);
    DecimalInjective(t1, t2);
  }

  /** In general two names clash exactly when some digits can be moved from the front of the one stamp to the end of
      the other chat id. */
  lemma ClashExactly(dir: string, c1: nat, t1: nat, c2: nat, t2: nat)
    requires |Decimal(t1)| >= |Decimal(t2)|
    ensures FilePath(dir, c1, t1) == FilePath(dir, c2, t2) <==>
      exists p: string :: Decimal(c2) == Decimal(c1) + p && Decimal(t1) == p + Decimal(t2)
  {
    SamePath(dir, c1, t1, c2, t2);
    SplitExactly(Decimal(c1), Decimal(t1), Decimal(c2), Decimal(t2));
  }

  lemma SplitExactly(a: string, b: string, c: string, d: string)
    requires |b| >= |d|
    ensures a + b == c + d <==> exists p: string :: c == a + p && b == p + d
  {
    if a + b == c + d {
      var s := a + b;
      var p := s[|a|..|c|];
      assert s[..|a|] == a && s[|a|..] == b && s[..|c|] == c && s[|c|..] == d;
      assert c == a + p && b == p + d;
    }
    if exists p: string :: c == a + p && b == p + d {
      var p: string :| c == a + p && b == p + d;
      assert a + (p + d) == (a + p) + d;
    }
  }

  lemma ClashExample(dir: string)
    ensures FilePath(dir, 1, 11) == FilePath(dir, 11, 1)
  {
  }

  // ---- Runs -------------------------------------------------------------------------------------------------------

  function Pow10(k: nat): nat {
    if k == 0 then 1 else 10 * Pow10(k - 1)
  }

  lemma {:induction false} DigitCount(n: nat, k: nat)
    requires 1 <= k && Pow10(k - 1) <= n < Pow10(k)
    ensures |Decimal(n)| == k
  {
    if n >= 10 && k >= 2 {
      assert Pow10(k - 1) == 10 * Pow10(k - 2) && Pow10(k) == 10 * Pow10(k - 1);
      DigitCount(n / 10, k - 1);
    }
    assert Pow10(1) == 10 * Pow10(0);
    if k >= 2 {
      AtLeastTen(k - 1);
    }
  }

  lemma {:induction false} AtLeastTen(k: nat)
    requires 1 <= k
    ensures Pow10(k) >= 10
  {
    if k > 1 {
      AtLeastTen(k - 1);
    }
  }

  lemma {:induction false} StampsAfterStart(t0: int, ls: seq<Label>)
    requires 1 <= t0
    ensures t0 <= Run(Init(t0), ls).now
    ensures forall m :: m in Run(Init(t0), ls).db.messages ==> t0 <= m.ts
  {
    if ls != [] {
      var s, l := Run(Init(t0), ls[..|ls| - 1]), ls[|ls| - 1];
      StampsAfterStart(t0, ls[..|ls| - 1]);
      BaseAlways(t0, ls[..|ls| - 1]);
      StampsStep(s, l, t0);
    }
  }

  lemma StampsStep(s: Sys, l: Label, t0: int)
    requires Base(s) && t0 <= s.now && forall m :: m in s.db.messages ==> t0 <= m.ts
    ensures t0 <= Step(s, l).now && forall m :: m in Step(s, l).db.messages ==> t0 <= m.ts
  {
    hide DoPoll, DoCreate, DoLeave, DoSay;
    var s' := Step(s, l);
    if IsServerLabel(l) {
      ServerMoves(s, l);
      forall m | m in s'.db.messages ensures t0 <= m.ts {
        var j :| 0 <= j < |s'.db.messages| && s'.db.messages[j] == m;
        if j < |s.db.messages| {
          assert m == s.db.messages[j];
        }
      }
    } else if l.Poll? {
      if PollAccepted(s, l.sid, l.order) {
        PollExact(s, l.sid, l.order);
      } else {
        PollRefused(s, l.sid, l.order);
      }
    }
  }

  lemma TenDigits()
    ensures Pow10(9) == 1_000_000_000 && Pow10(10) == 10_000_000_000
  {
  }

  /** A service that started after September 2001 and has not run until 2286 never gives two messages the same file:
      stamps are unique in a chat, and all have ten digits. */
  lemma NoSharedFile(t0: int, ls: seq<Label>, dir: string, i: nat, j: nat)
    requires 1_000_000_000 <= t0 && Run(Init(t0), ls).now < 10_000_000_000
    requires i < j < |Run(Init(t0), ls).db.messages|
    ensures var ms := Run(Init(t0), ls).db.messages;
      && ms[i].chat >= 0 && ms[i].ts >= 0 && ms[j].chat >= 0 && ms[j].ts >= 0
      && FilePath(dir, ms[i].chat, ms[i].ts) != FilePath(dir, ms[j].chat, ms[j].ts)
  {
    BaseAlways(t0, ls);
    StampsAfterStart(t0, ls);
    PathsDiffer(Run(Init(t0), ls).db, Run(Init(t0), ls).now, dir, i, j);
  }

  lemma PathsDiffer(db: Db, now: int, dir: string, i: nat, j: nat)
    requires DbOk(db, now) && now < 10_000_000_000 && i < j < |db.messages|
    requires forall m :: m in db.messages ==> 1_000_000_000 <= m.ts
    ensures var ms := db.messages;
      && ms[i].chat >= 0 && ms[i].ts >= 0 && ms[j].chat >= 0 && ms[j].ts >= 0
      && FilePath(dir, ms[i].chat, ms[i].ts) != FilePath(dir, ms[j].chat, ms[j].ts)
  {
    var a, b := db.messages[i], db.messages[j];
    assert a in db.messages && b in db.messages;
    assert a.chat == b.chat ==> a.ts != b.ts;
    hide DbOk;
    TenDigits();
    DigitCount(a.ts, 10);
    DigitCount(b.ts, 10);
    if FilePath(dir, a.chat, a.ts) == FilePath(dir, b.chat, b.ts) {
      PathInjective(dir, a.chat, a.ts, b.chat, b.ts);
    }
  }
}
