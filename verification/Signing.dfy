/** Loading a rule requires enough valid signatures by distinct authorized keys. */
module Signing {
  import opened Machine

  /** What verifying one signature file yields: the signing key's fingerprint, or None when the file is
      unreadable, malformed or does not match the module. */
  type SignatureFile = Option<string>

  datatype Outcome = Accepted | NotEnough(valid: nat, required: nat)

  /** The reference: distinct authorized fingerprints with a valid signature. */
  ghost function ValidSigners(files: seq<SignatureFile>, authorized: seq<string>): set<string> {
    set i | 0 <= i < |files| && files[i].Some? && files[i].value in authorized :: files[i].value
  }

  lemma SignersOfPrefix(files: seq<SignatureFile>, authorized: seq<string>, n: nat)
    requires n < |files|
    ensures ValidSigners(files[..n + 1], authorized) == ValidSigners(files[..n], authorized) +
      (if files[n].Some? && files[n].value in authorized then {files[n].value} else {})
  {
    var a, b := ValidSigners(files[..n + 1], authorized), ValidSigners(files[..n], authorized);
    forall x | x in b ensures x in a {
      var i :| 0 <= i < n && files[..n][i].Some? && files[..n][i].value == x && x in authorized;
      assert files[..n + 1][i].value == x;
    }
    if files[n].Some? && files[n].value in authorized {
      assert files[..n + 1][n].value in a;
    }
    forall x | x in a ensures x in b || (files[n].Some? && x == files[n].value && x in authorized) {
      var i :| 0 <= i < n + 1 && files[..n + 1][i].Some? && files[..n + 1][i].value == x && x in authorized;
      if i < n {
        assert files[..n][i].value == x;
      }
    }
  }

  lemma {:induction false} SignersGrow(files: seq<SignatureFile>, authorized: seq<string>, n: nat)
    requires n <= |files|
    ensures ValidSigners(files[..n], authorized) <= ValidSigners(files, authorized)
    decreases |files| - n
  {
    if n == |files| {
      assert files[..n] == files;
    } else {
      SignersOfPrefix(files, authorized, n);
      SignersGrow(files, authorized, n + 1);
    }
  }

  /** No more signers than files. */
  lemma {:induction false} AtMostOneSignerPerFile(files: seq<SignatureFile>, authorized: seq<string>, n: nat)
    requires n <= |files|
    ensures |ValidSigners(files[..n], authorized)| <= n
  {
    if n > 0 {
      AtMostOneSignerPerFile(files, authorized, n - 1);
      SignersOfPrefix(files, authorized, n - 1);
    } else {
      assert ValidSigners(files[..0], authorized) == {};
    }
  }

  /** Despite the file count shortcut and the early exit: accepted exactly when the distinct authorized
      signers number at least the threshold, and at least one. The shortcut and the early exit do not
      make the answer depend on the order of the files or on repeated signatures. */
  method CheckModuleSignatures(files: seq<SignatureFile>, authorized: seq<string>, required: nat) returns (r: Outcome)
    ensures r.Accepted? <==> |ValidSigners(files, authorized)| >= (if required == 0 then 1 else required)
    ensures r.NotEnough? ==> r.required == required
    ensures r.NotEnough? ==> r.valid == if |files| < required then 0 else |ValidSigners(files, authorized)|
  {
    assert files[..|files|] == files;
    if |files| < required {
      AtMostOneSignerPerFile(files, authorized, |files|);
      return NotEnough(0, required);
    }
    var validSignatures: set<string> := {};
    for i := 0 to |files|
      invariant validSignatures == ValidSigners(files[..i], authorized)
      invariant validSignatures == {} || |validSignatures| < required
    {
      SignersOfPrefix(files, authorized, i);
      if files[i].None? {
        continue;
      }
      if files[i].value !in authorized {
        continue;
      }
      validSignatures := validSignatures + {files[i].value};
      if |validSignatures| >= required {
        SignersGrow(files, authorized, i + 1);
        SubsetIsSmaller(validSignatures, ValidSigners(files, authorized));
        assert files[i].value in validSignatures;
        return Accepted;
      }
    }
    return NotEnough(|validSignatures|, required);
  }
}
