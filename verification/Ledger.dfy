/** The ledger: which credentials of a shared core are the panel's (setKeys, readLedger and
    writeLedger in internal/sidecar/prepare.go). */
module Ledger {
  import opened Text

  lemma MembersNext(l: seq<string>, i: nat)
    requires i < |l|
    ensures Members(l[..i + 1]) == Members(l[..i]) + {l[i]} && l[..0] == []
  {
    assert l[..i + 1] == l[..i] + [l[i]];
    MembersAppend(l[..i], l[i]);
  }

  /** setKeys: the members of a set in some order. */
  method SetKeys(s: set<string>) returns (keys: seq<string>)
    ensures Members(keys) == s
  {
    hide Members;
    keys := [];
    MembersNone<string>();
    var todo := s;
    while todo != {}
      invariant todo <= s && Members(keys) == s - todo
      decreases todo
    {
      SomeText(todo);
      var c :| c in todo;
      MembersAppend(keys, c);
      todo := todo - {c};
      keys := keys + [c];
    }
  }
}
