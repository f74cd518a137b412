/** `display_dashboard`: a read-only view of the session's linked accounts and profile. */
module Dashboard {
  import opened Seqs
  import opened Text
  import opened Schema
  import opened Auth
  import Linking

  /** The linked accounts as `(platform, account name)` lines, then the profile. */
  datatype Board = Board(accounts: seq<(string, string)>, username: string, email: string)

  /** How one linked account is listed: its platform and its name on that platform. */
  function Line(a: Account): (string, string)
  {
    (a.platform, a.accountName)
  }

  /** One line per account, in the order the accounts come. */
  function Lines(accounts: seq<Account>): (r: seq<(string, string)>)
    ensures |r| == |accounts|
    ensures forall i :: 0 <= i < |r| ==> r[i] == Line(accounts[i])
    ensures forall a :: a in accounts ==> Line(a) in r
    ensures forall e :: e in r ==> exists a :: a in accounts && Line(a) == e
    decreases |accounts|
  {
    if |accounts| == 0 then []
    else [Line(accounts[0])] + Lines(accounts[1..])
  }

  /**
   * One line per account row of the session's user, in retrieval order; the
   * profile shown is the one captured in the session at login.
   */
  function Show(s: Store, user: Session): (b: Board)
    ensures |b.accounts| == |AccountsOf(s, user.id)|
    ensures forall i :: 0 <= i < |b.accounts| ==> b.accounts[i] == Line(AccountsOf(s, user.id)[i])
    ensures forall a :: a in s.accounts && a.userId == user.id ==> Line(a) in b.accounts
    ensures forall e :: e in b.accounts ==> exists a :: a in s.accounts && a.userId == user.id && Line(a) == e
    ensures b.username == user.username && b.email == user.email
  {
    Board(Lines(AccountsOf(s, user.id)), user.username, user.email)
  }

  /**
   * A committed link shows on the dashboard as one more line, at the end,
   * with the platform in lower case; a rejected one changes nothing.
   */
  lemma ConnectShowsOnDashboard(s: Store, user: Session, platform: string, accountName: string,
                                extras: Linking.Extras, fault: bool)
    ensures var o := Linking.Connect(s, user, platform, accountName, extras, fault);
            Show(o.store, user).accounts ==
              if o.status == Done then Show(s, user).accounts + [(Lower(platform), accountName)]
              else Show(s, user).accounts
  {
    var o := Linking.Connect(s, user, platform, accountName, extras, fault);
    if o.status == Done {
      var row := Account(s.nextAccountId, user.id, Lower(platform), accountName);
      assert o.store.accounts == s.accounts + [row];
      FilterAppend(s.accounts, [row], HeldBy(user.id));
      assert [row][1..] == [];
      assert Filter([row], HeldBy(user.id)) == [row];
      assert AccountsOf(o.store, user.id) == AccountsOf(s, user.id) + [row];
      LinesAppend(AccountsOf(s, user.id), [row]);
      assert Lines([row]) == [Line(row)];
    }
  }

  lemma {:induction false} LinesAppend(xs: seq<Account>, ys: seq<Account>)
    ensures Lines(xs + ys) == Lines(xs) + Lines(ys)
  {
    if |xs| == 0 {
      assert xs + ys == ys;
    } else {
      assert (xs + ys)[1..] == xs[1..] + ys;
      LinesAppend(xs[1..], ys);
    }
  }
}
