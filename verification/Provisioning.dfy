/** One workspace and one onboarding email an account (workers/fulfillment/provisioning.py). */
module Provisioning {
  import Billing

  datatype Workspace = Workspace(
    id: string,
    account: string,
    plan: string,
    primaryEmail: string,
    linkedUploads: seq<string>,
    linkedProofs: seq<string>
  )

  datatype State = State(workspaces: seq<Workspace>, provisioned: set<string>, emails: seq<string>)

  const EMPTY := State([], {}, [])

  /** A request brings the id it would use for a new workspace. */
  datatype Request = Request(
    account: string,
    plan: string,
    primaryEmail: string,
    uploads: seq<string>,
    proofs: seq<string>,
    id: string
  )

  function FindWorkspace(workspaces: seq<Workspace>, account: string): (i: nat)
    ensures i <= |workspaces|
    ensures i < |workspaces| ==> workspaces[i].account == account
    ensures forall j :: 0 <= j < i ==> workspaces[j].account != account
  {
    if workspaces == [] || workspaces[0].account == account then 0 else 1 + FindWorkspace(workspaces[1..], account)
  }

  function Owners(workspaces: seq<Workspace>): set<string> {
    if workspaces == [] then {} else Owners(workspaces[..|workspaces| - 1]) + {workspaces[|workspaces| - 1].account}
  }

  lemma {:induction false} OwnerHasWorkspace(workspaces: seq<Workspace>, a: string)
    ensures a in Owners(workspaces) <==> exists i :: 0 <= i < |workspaces| && workspaces[i].account == a
  {
    if workspaces != [] {
      var n := |workspaces| - 1;
      OwnerHasWorkspace(workspaces[..n], a);
      assert workspaces[n].account == a ==> a in Owners(workspaces);
      if i :| 0 <= i < |workspaces[..n]| && workspaces[..n][i].account == a {
        assert workspaces[i].account == a;
      }
      if i :| 0 <= i < |workspaces| && workspaces[i].account == a {
        assert i < n ==> workspaces[..n][i].account == a;
      }
    }
  }

  function Take(s: State, r: Request): State {
    if r.account in s.provisioned && FindWorkspace(s.workspaces, r.account) < |s.workspaces| then s
    else State(s.workspaces + [Workspace(r.id, r.account, r.plan, r.primaryEmail, r.uploads, r.proofs)],
               s.provisioned + {r.account},
               s.emails + [r.primaryEmail])
  }

  function TakeAll(requests: seq<Request>): State {
    if requests == [] then EMPTY else Take(TakeAll(requests[..|requests| - 1]), requests[|requests| - 1])
  }

  function Accounts(requests: seq<Request>): set<string> {
    if requests == [] then {} else Accounts(requests[..|requests| - 1]) + {requests[|requests| - 1].account}
  }

  /** The first request of an account decides its workspace. */
  ghost predicate FirstRequest(requests: seq<Request>, r: Request) {
    exists i :: 0 <= i < |requests| && requests[i] == r && forall j :: 0 <= j < i ==> requests[j].account != r.account
  }

  function RequestOf(w: Workspace): Request {
    Request(w.account, w.plan, w.primaryEmail, w.linkedUploads, w.linkedProofs, w.id)
  }

  ghost predicate DistinctAccounts(workspaces: seq<Workspace>) {
    forall i, j :: 0 <= i < j < |workspaces| ==> workspaces[i].account != workspaces[j].account
  }

  /** One workspace and one email for each account that asked, and for nobody else. */
  ghost predicate OneEach(s: State, requests: seq<Request>) {
    && s.provisioned == Accounts(requests)
    && |s.workspaces| == |s.emails| == |s.provisioned|
    && DistinctAccounts(s.workspaces)
    && (forall i :: 0 <= i < |s.workspaces| ==> s.emails[i] == s.workspaces[i].primaryEmail)
    && s.provisioned == Owners(s.workspaces)
  }

  /** Each workspace carries the data of the first request of its account. */
  ghost predicate FirstComeFirstServed(s: State, requests: seq<Request>) {
    forall i :: 0 <= i < |s.workspaces| ==> FirstRequest(requests, RequestOf(s.workspaces[i]))
  }

  lemma {:induction false} RequestsAreInAccounts(requests: seq<Request>, i: nat)
    requires i < |requests|
    ensures requests[i].account in Accounts(requests)
  {
    if i < |requests| - 1 {
      RequestsAreInAccounts(requests[..|requests| - 1], i);
    }
  }

  lemma FirstRequestStays(requests: seq<Request>, r: Request, x: Request)
    ensures FirstRequest(requests, x) ==> FirstRequest(requests + [r], x)
    ensures r.account !in Accounts(requests) ==> FirstRequest(requests + [r], r)
  {
    var all := requests + [r];
    if FirstRequest(requests, x) {
      var i :| 0 <= i < |requests| && requests[i] == x && forall j :: 0 <= j < i ==> requests[j].account != x.account;
      assert all[i] == x && forall j :: 0 <= j < i ==> all[j].account != x.account;
    }
    if r.account !in Accounts(requests) {
      forall j | 0 <= j < |requests|
        ensures all[j].account != r.account
      {
        RequestsAreInAccounts(requests, j);
      }
      assert all[|requests|] == r;
    }
  }

  lemma NewWorkspaceKeepsOneEach(s: State, requests: seq<Request>, r: Request)
    requires OneEach(s, requests) && r.account !in s.provisioned
    ensures OneEach(Take(s, r), requests + [r])
  {
    assert (requests + [r])[..|requests|] == requests;
    assert Take(s, r).workspaces[..|s.workspaces|] == s.workspaces;
    forall i | 0 <= i < |s.workspaces|
      ensures s.workspaces[i].account != r.account
    {
      OwnerHasWorkspace(s.workspaces, s.workspaces[i].account);
    }
  }

  lemma RepeatKeepsOneEach(s: State, requests: seq<Request>, r: Request)
    requires OneEach(s, requests) && r.account in s.provisioned
    ensures Take(s, r) == s && OneEach(s, requests + [r])
  {
    assert (requests + [r])[..|requests|] == requests;
    assert s.provisioned + {r.account} == s.provisioned;
    OwnerHasWorkspace(s.workspaces, r.account);
  }

  /** However often requests are repeated: one workspace and one email for each distinct account. */
  lemma {:induction false} OneWorkspacePerAccount(requests: seq<Request>)
    ensures OneEach(TakeAll(requests), requests)
  {
    if requests != [] {
      var n := |requests| - 1;
      OneWorkspacePerAccount(requests[..n]);
      assert requests == requests[..n] + [requests[n]];
      if requests[n].account in TakeAll(requests[..n]).provisioned {
        RepeatKeepsOneEach(TakeAll(requests[..n]), requests[..n], requests[n]);
      } else {
        NewWorkspaceKeepsOneEach(TakeAll(requests[..n]), requests[..n], requests[n]);
      }
    }
  }

  lemma StepKeepsFirstCome(s: State, requests: seq<Request>, r: Request)
    requires FirstComeFirstServed(s, requests) && s.provisioned == Accounts(requests)
    requires s.provisioned == Owners(s.workspaces)
    ensures FirstComeFirstServed(Take(s, r), requests + [r])
  {
    var t := Take(s, r);
    OwnerHasWorkspace(s.workspaces, r.account);
    forall i | 0 <= i < |t.workspaces|
      ensures FirstRequest(requests + [r], RequestOf(t.workspaces[i]))
    {
      FirstRequestStays(requests, r, RequestOf(t.workspaces[i]));
    }
  }

  lemma {:induction false} FirstRequestDecides(requests: seq<Request>)
    ensures FirstComeFirstServed(TakeAll(requests), requests)
  {
    if requests != [] {
      var n := |requests| - 1;
      FirstRequestDecides(requests[..n]);
      OneWorkspacePerAccount(requests[..n]);
      StepKeepsFirstCome(TakeAll(requests[..n]), requests[..n], requests[n]);
      assert requests == requests[..n] + [requests[n]];
    }
  }

  // ---- from payment to workspace --------------------------------------------------------------------

  function ActivatedAccounts(activations: seq<Billing.Activation>): set<string> {
    if activations == [] then {}
    else ActivatedAccounts(activations[..|activations| - 1]) + {activations[|activations| - 1].account}
  }

  /** Requests that serve every activation at least once, in any order and number, and nobody else. */
  ghost predicate Serves(requests: seq<Request>, activations: seq<Billing.Activation>) {
    Accounts(requests) == ActivatedAccounts(activations)
  }

  /**
   Webhook replays and repeated provisioning together still give every paying account exactly one
   workspace and one email.
   */
  lemma PaymentsLeadToOneWorkspace(steps: seq<Billing.Step>, replayed: seq<Billing.Step>, requests: seq<Request>)
    requires Billing.FirstDeliveries(replayed) == Billing.FirstDeliveries(steps)
    requires Serves(requests, Billing.TakeAll(replayed).activations)
    ensures OneEach(TakeAll(requests), requests)
    ensures TakeAll(requests).provisioned == ActivatedAccounts(Billing.TakeAll(steps).activations)
    ensures |TakeAll(requests).emails| == |ActivatedAccounts(Billing.TakeAll(steps).activations)|
  {
    OneWorkspacePerAccount(requests);
    Billing.ReplaysChangeNothing(steps);
    Billing.ReplaysChangeNothing(replayed);
  }

  class ProvisioningService {
    var workspaces: seq<Workspace>
    var provisioned: set<string>
    var emails: seq<string>

    ghost function Model(): State
      reads this
    {
      State(workspaces, provisioned, emails)
    }

    constructor ()
      ensures Model() == EMPTY
    {
      workspaces, provisioned, emails := [], {}, [];
    }

    method Provision(account: string, plan: string, primaryEmail: string, uploads: seq<string>, proofs: seq<string>,
                     id: string)
      returns (ws: Workspace, created: bool)
      modifies this
      ensures created <==> account !in old(provisioned) || forall w :: w in old(workspaces) ==> w.account != account
      ensures created ==> ws == Workspace(id, account, plan, primaryEmail, uploads, proofs)
      ensures created ==> workspaces == old(workspaces) + [ws] && emails == old(emails) + [primaryEmail]
                          && provisioned == old(provisioned) + {account}
      ensures !created ==> workspaces == old(workspaces) && emails == old(emails) && provisioned == old(provisioned)
      ensures Model() == Take(old(Model()), Request(account, plan, primaryEmail, uploads, proofs, id))
      ensures ws in workspaces && ws.account == account
    {
      if account in provisioned {
        var i := FindWorkspace(workspaces, account);
        if i < |workspaces| {
          return workspaces[i], false;
        }
      }
      ws := Workspace(id, account, plan, primaryEmail, uploads, proofs);
      workspaces := workspaces + [ws];
      provisioned := provisioned + {account};
      emails := emails + [primaryEmail];
      return ws, true;
    }
  }
}
