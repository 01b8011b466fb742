/** `analyze_hooks` of endpoint_monitor/logic.py: the hooks an agent reports are checked
    against a whitelist of system libraries. */
module EndpointLogic {
  import opened Text

  /** The whitelisted libraries (lines 4-7). */
  const SafeHooks: seq<string> := [
    "User32.dll", "Kernel32.dll", "Gdi32.dll", "ntdll.dll",
    "comctl32.dll", "msvcrt.dll", "ws2_32.dll"
  ]

  /** A hook is safe when the lower-cased name of some whitelisted library occurs in
      its own lower-cased name. */
  predicate IsSafe(hook: string) {
    exists k :: 0 <= k < |SafeHooks| && Contains(Lower(hook), Lower(SafeHooks[k]))
  }

  /** The hooks that are not safe, in input order, duplicates kept. */
  function Suspicious(hooks: seq<string>): seq<string>
  {
    if hooks == [] then []
    else
      var last := hooks[|hooks| - 1];
      Suspicious(hooks[..|hooks| - 1]) + (if IsSafe(last) then [] else [last])
  }

  /** `xs` is `ys` with some elements left out, the rest in order. */
  predicate Subsequence(xs: seq<string>, ys: seq<string>)
    decreases |ys|
  {
    if xs == [] then true
    else if ys == [] then false
    else if xs[|xs| - 1] == ys[|ys| - 1] then Subsequence(xs[..|xs| - 1], ys[..|ys| - 1])
    else Subsequence(xs, ys[..|ys| - 1])
  }

  /** Lines 23-27 for one hook: the whitelist scanned until a library matches. */
  method CheckHook(hook: string) returns (isSafe: bool)
    ensures isSafe == IsSafe(hook)
  {
    isSafe := false;
    var k := 0;
    while k < |SafeHooks|
      invariant 0 <= k <= |SafeHooks|
      invariant !isSafe
      invariant forall j :: 0 <= j < k ==> !Contains(Lower(hook), Lower(SafeHooks[j]))
    {
      var safe := SafeHooks[k];
      if Contains(Lower(hook), Lower(safe)) {
        isSafe := true;
        break;
      }
      k := k + 1;
    }
  }

  /** analyze_hooks: the suspicious hooks collected in order, and whether there are any. */
  method AnalyzeHooks(hooksList: seq<string>) returns (activeRisk: bool, suspicious: seq<string>)
    ensures suspicious == Suspicious(hooksList)
    ensures activeRisk <==> |suspicious| > 0
  {
    if |hooksList| == 0 {
      return false, [];
    }
    suspicious := [];
    var i := 0;
    while i < |hooksList|
      invariant 0 <= i <= |hooksList|
      invariant suspicious == Suspicious(hooksList[..i])
    {
      var hook := hooksList[i];
      assert hooksList[..i + 1][..i] == hooksList[..i];
      var isSafe := CheckHook(hook);
      if !isSafe {
        suspicious := suspicious + [hook];
      }
      i := i + 1;
    }
    assert hooksList[..i] == hooksList;
    activeRisk := |suspicious| > 0;
  }

  // ---- properties ----

  /** A hook is reported exactly when it occurs in the input and is not safe. */
  lemma {:induction false} SuspiciousMembers(hooks: seq<string>, h: string)
    ensures h in Suspicious(hooks) <==> h in hooks && !IsSafe(h)
    decreases |hooks|
  {
    if hooks != [] {
      var init := hooks[..|hooks| - 1];
      SuspiciousMembers(init, h);
      assert hooks == init + [hooks[|hooks| - 1]];
    }
  }

  /** The report keeps the input's order: it is a subsequence of the input. */
  lemma {:induction false} SuspiciousIsSubsequence(hooks: seq<string>)
    ensures Subsequence(Suspicious(hooks), hooks)
    decreases |hooks|
  {
    if hooks != [] {
      var init := hooks[..|hooks| - 1];
      SuspiciousIsSubsequence(init);
      if !IsSafe(hooks[|hooks| - 1]) {
        assert (Suspicious(init) + [hooks[|hooks| - 1]])[..|Suspicious(init)|] == Suspicious(init);
      } else {
        assert Suspicious(hooks) == Suspicious(init);
        SubsequenceOfLonger(Suspicious(init), init, hooks[|hooks| - 1]);
      }
    }
  }

  /** A subsequence of `ys` is a subsequence of `ys` with one more element. */
  lemma {:induction false} SubsequenceOfLonger(xs: seq<string>, ys: seq<string>, y: string)
    requires Subsequence(xs, ys)
    ensures Subsequence(xs, ys + [y])
    decreases |ys|, 1
  {
    var ys' := ys + [y];
    assert ys'[..|ys'| - 1] == ys;
    if xs != [] && xs[|xs| - 1] == y {
      SubsequenceDropLast(xs, ys);
    }
  }

  /** Dropping the last element of a subsequence keeps it a subsequence. */
  lemma {:induction false} SubsequenceDropLast(xs: seq<string>, ys: seq<string>)
    requires xs != [] && Subsequence(xs, ys)
    ensures Subsequence(xs[..|xs| - 1], ys)
    decreases |ys|, 0
  {
    var init := xs[..|xs| - 1];
    if xs[|xs| - 1] == ys[|ys| - 1] {
      if init != [] {
        SubsequenceOfLonger(init, ys[..|ys| - 1], ys[|ys| - 1]);
        assert ys[..|ys| - 1] + [ys[|ys| - 1]] == ys;
      }
    } else {
      SubsequenceDropLast(xs, ys[..|ys| - 1]);
      if init != [] {
        SubsequenceOfLonger(init, ys[..|ys| - 1], ys[|ys| - 1]);
        assert ys[..|ys| - 1] + [ys[|ys| - 1]] == ys;
      }
    }
  }

  /** Each hook is judged on its own, so the reports of two lists concatenate. */
  lemma {:induction false} SuspiciousAppend(a: seq<string>, b: seq<string>)
    ensures Suspicious(a + b) == Suspicious(a) + Suspicious(b)
    decreases |b|
  {
    if b == [] {
      assert a + b == a;
    } else {
      var init := b[..|b| - 1];
      assert (a + b)[..|a + b| - 1] == a + init;
      assert (a + b)[|a + b| - 1] == b[|b| - 1];
      SuspiciousAppend(a, init);
    }
  }

  /** No hooks, no risk. */
  lemma NoHooksNoRisk()
    ensures Suspicious([]) == []
  {
  }

  /** Safety ignores case: hooks with the same lower-case form are judged alike. */
  lemma CaseInsensitive(h1: string, h2: string)
    requires Lower(h1) == Lower(h2)
    ensures IsSafe(h1) <==> IsSafe(h2)
  {
  }

  /** A path whose last component is a whitelisted name is safe, whatever the
      directory and the case it is written in. */
  lemma PathIsSafe(dir: string, name: string, k: nat)
    requires k < |SafeHooks| && Lower(name) == Lower(SafeHooks[k])
    ensures IsSafe(dir + name)
  {
    var low := Lower(dir + name);
    assert low[|dir|..] == Lower(name);
    assert OccursAt(low, Lower(SafeHooks[k]), |dir|);
  }

  /** A text in which some character of `sub` never occurs does not contain `sub`. */
  lemma MissingChar(s: string, sub: string, c: char)
    requires c in sub && c !in s
    ensures !Contains(s, sub)
  {
    forall i | 0 <= i
      ensures !OccursAt(s, sub, i)
    {
      if i + |sub| <= |s| {
        var j :| 0 <= j < |sub| && sub[j] == c;
        assert s[i..i + |sub|][j] == s[i + j];
      }
    }
  }

  /** Text without capitals is its own lower-case form. */
  lemma LowerUnchanged(s: string)
    requires forall i :: 0 <= i < |s| ==> !('A' <= s[i] <= 'Z')
    ensures Lower(s) == s
  {
  }

  lemma ContainsItself(s: string)
    ensures Contains(s, s)
  {
    assert OccursAt(s, s, 0);
  }

  /** The whitelisted name at `k` has the character `c`, which malicious.dll lacks. */
  lemma NotWhitelisted(k: nat, idx: nat, c: char)
    requires k < |SafeHooks| && idx < |SafeHooks[k]| && LowerChar(SafeHooks[k][idx]) == c
    requires c !in "malicious.dll"
    ensures !Contains(Lower("malicious.dll"), Lower(SafeHooks[k]))
  {
    LowerUnchanged("malicious.dll");
    MissingChar("malicious.dll", Lower(SafeHooks[k]), c);
  }

  lemma MaliciousNotSafe()
    ensures !IsSafe("malicious.dll")
  {
    forall k | 0 <= k < |SafeHooks|
      ensures !Contains(Lower("malicious.dll"), Lower(SafeHooks[k]))
    {
      NotWhitelistedAt(k);
    }
  }

  lemma NotWhitelistedAt(k: nat)
    requires k < |SafeHooks|
    ensures !Contains(Lower("malicious.dll"), Lower(SafeHooks[k]))
  {
    var idx := [4, 6, 3, 1, 6, 2, 2][k];
    var c := ['3', '3', '3', 't', '3', 'v', '2'][k];
    NotWhitelisted(k, idx, c);
  }

  lemma UserIsSafe()
    ensures IsSafe("User32.dll")
  {
    ContainsItself(Lower("User32.dll"));
    assert SafeHooks[0] == "User32.dll";
  }

  /** With User32.dll whitelisted and malicious.dll not, only the second is reported. */
  lemma MaliciousReported()
    ensures Suspicious(["User32.dll", "malicious.dll"]) == ["malicious.dll"]
  {
    UserIsSafe();
    MaliciousNotSafe();
    var hooks := ["User32.dll", "malicious.dll"];
    assert hooks[..1][..0] == [];
    assert hooks[..1] == ["User32.dll"];
  }
}
