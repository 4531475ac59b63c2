/** The Firehose side of KLEE's diagnostic reporting in
    lib/Support/ErrorHandling.cpp: the classifier that gives every reported
    message a Firehose id, the set of keys that lets `klee_warning_once`
    report each warning once, and the decision which Firehose element (an
    Info, a Failure or none) a message becomes.

    C strings are modelled as `string` values without NUL characters. The
    classifier and the routing see a message after `printf`-style
    formatting; the warn-once key is built from the format string before
    any formatting. */
module ErrorHandling {
  import opened Strings
  import opened Firehose

  datatype Option<T> = None | Some(value: T)

  // ---------------------------------------------------------------------
  // The classifier: determineFirehoseFailureInfoId
  // ---------------------------------------------------------------------

  /** The message beginnings the classifier looks for, in the order it
      tries them: seven kinds of info, then two kinds of failure. */
  const MessagePrefixes: seq<string> := [
    "undefined reference to function",
    "undefined reference to variable",
    "calling external",
    "calling __user_main with extra arguments",
    "Large alloc",
    "execve",
    "executable has module level assembly",
    "unable to load symbol",
    "failed external call"
  ]

  /** The id belonging to each entry of MessagePrefixes, position by
      position. */
  const FailureInfoIds: seq<string> := [
    "undefined-function-reference",
    "undefined-variable-reference",
    "calling-external",
    "calling-user-main",
    "large-alloc",
    "execve",
    "module-level-assembly",
    "symbol-loading",
    "external-call"
  ]

  /** The three fragments looked for anywhere in a message that starts with
      none of the prefixes, and the ids they give. */
  const InlineAsm := "has inline asm"
  const SilentlyIgnoring := "silently ignoring"
  const PosixRuntime := "when main() has less than two arguments"

  /** Every id the classifier can return. */
  predicate IsClassifierId(id: string) {
    id in FailureInfoIds
    || id == "inline-asm" || id == "silently-ignoring" || id == "posix-runtime"
    || id == "other"
  }

  /** `msg` starts with none of the table's prefixes. */
  predicate NoPrefixMatches(msg: string) {
    forall j :: 0 <= j < |MessagePrefixes| ==> !StartsWith(msg, MessagePrefixes[j])
  }

  /** The position of the first prefix at or after `i` that `msg` starts
      with, or the length of the table when there is none. */
  function FirstPrefixFrom(msg: string, i: nat): (k: nat)
    requires i <= |MessagePrefixes|
    ensures i <= k <= |MessagePrefixes|
    ensures forall j :: i <= j < k ==> !StartsWith(msg, MessagePrefixes[j])
    ensures k < |MessagePrefixes| ==> StartsWith(msg, MessagePrefixes[k])
    decreases |MessagePrefixes| - i
  {
    if i == |MessagePrefixes| then i
    else if StartsWith(msg, MessagePrefixes[i]) then i
    else FirstPrefixFrom(msg, i + 1)
  }

  /** The id of a message that starts with none of the prefixes: the first
      fragment it contains decides, and a message with none is "other". */
  function FragmentId(msg: string): string {
    if Contains(msg, InlineAsm) then "inline-asm"
    else if Contains(msg, SilentlyIgnoring) then "silently-ignoring"
    else if Contains(msg, PosixRuntime) then "posix-runtime"
    else "other"
  }

  /** What `determineFirehoseFailureInfoId` returns for `msg`: the id of the
      first prefix `msg` starts with, or else the id its fragments give. */
  function FailureInfoId(msg: string): string {
    var k := FirstPrefixFrom(msg, 0);
    if k < |FailureInfoIds| then FailureInfoIds[k] else FragmentId(msg)
  }

  /** `determineFirehoseFailureInfoId`: the loop over the two tables with
      its early return, then the chain of fragment checks. */
  method DetermineFailureInfoId(msg: string) returns (id: string)
    ensures id == FailureInfoId(msg)
    ensures IsClassifierId(id)
  {
    var i := 0;
    while i < |MessagePrefixes|
      invariant 0 <= i <= |MessagePrefixes|
      invariant FirstPrefixFrom(msg, 0) == FirstPrefixFrom(msg, i)
    {
      if StartsWith(msg, MessagePrefixes[i]) {
        return FailureInfoIds[i];
      }
      i := i + 1;
    }
    if Contains(msg, InlineAsm) {
      id := "inline-asm";
    } else if Contains(msg, SilentlyIgnoring) {
      id := "silently-ignoring";
    } else if Contains(msg, PosixRuntime) {
      id := "posix-runtime";
    } else {
      id := "other";
    }
  }

  /** The classifier is total and returns one of its thirteen ids. */
  lemma FailureInfoIdIsClassifierId(msg: string)
    ensures IsClassifierId(FailureInfoId(msg))
  {
    var k := FirstPrefixFrom(msg, 0);
    if k < |FailureInfoIds| {
      assert FailureInfoIds[k] in FailureInfoIds;
    }
  }

  /** The thirteen ids are pairwise different, so the id names the rule
      that fired. */
  lemma IdsDistinct()
    ensures |MessagePrefixes| == |FailureInfoIds|
    ensures forall a, b :: 0 <= a < b < |FailureInfoIds| ==> FailureInfoIds[a] != FailureInfoIds[b]
    ensures forall a :: 0 <= a < |FailureInfoIds| ==>
      FailureInfoIds[a] !in {"inline-asm", "silently-ignoring", "posix-runtime", "other"}
  {
  }

  /** A table id comes out exactly when its prefix is the first one the
      message starts with. */
  lemma TableIdIff(msg: string, k: nat)
    requires k < |FailureInfoIds|
    ensures FailureInfoId(msg) == FailureInfoIds[k]
        <==> StartsWith(msg, MessagePrefixes[k])
             && forall j :: 0 <= j < k ==> !StartsWith(msg, MessagePrefixes[j])
  {
    IdsDistinct();
    var first := FirstPrefixFrom(msg, 0);
    if StartsWith(msg, MessagePrefixes[k]) && forall j :: 0 <= j < k ==> !StartsWith(msg, MessagePrefixes[j]) {
      assert first == k;
    }
    if FailureInfoId(msg) == FailureInfoIds[k] {
      assert first < |FailureInfoIds|;
      assert first == k;
    }
  }

  /** The fragment checks run only when no prefix matched, in their order. */
  lemma FragmentIdsIff(msg: string)
    ensures FailureInfoId(msg) == "inline-asm"
        <==> NoPrefixMatches(msg) && Contains(msg, InlineAsm)
    ensures FailureInfoId(msg) == "silently-ignoring"
        <==> NoPrefixMatches(msg) && !Contains(msg, InlineAsm) && Contains(msg, SilentlyIgnoring)
    ensures FailureInfoId(msg) == "posix-runtime"
        <==> NoPrefixMatches(msg) && !Contains(msg, InlineAsm) && !Contains(msg, SilentlyIgnoring)
             && Contains(msg, PosixRuntime)
    ensures FailureInfoId(msg) == "other"
        <==> NoPrefixMatches(msg) && !Contains(msg, InlineAsm) && !Contains(msg, SilentlyIgnoring)
             && !Contains(msg, PosixRuntime)
  {
    IdsDistinct();
    var first := FirstPrefixFrom(msg, 0);
    if first < |FailureInfoIds| {
      assert !NoPrefixMatches(msg);
    } else {
      assert NoPrefixMatches(msg);
    }
  }

  // ---------------------------------------------------------------------
  // Classifier examples from unittests/Firehose/FirehoseTest.cpp
  // ---------------------------------------------------------------------

  /** A string without some character of `sub` does not contain `sub`. */
  lemma {:induction false} MissingCharNotContained(s: string, sub: string, k: nat)
    requires k < |sub| && sub[k] !in s
    ensures !Contains(s, sub)
    decreases |s|
  {
    if s != [] {
      MissingCharNotContained(s[1..], sub, k);
    }
  }

  /** The first characters of the table's prefixes. */
  const PrefixInitials: set<char> := {'u', 'c', 'L', 'e', 'f'}

  /** A message whose first character begins no prefix matches none. */
  lemma NoPrefixFromInitial(msg: string)
    requires msg != [] && msg[0] !in PrefixInitials
    ensures NoPrefixMatches(msg)
  {
    assert forall j :: 0 <= j < |MessagePrefixes| ==>
      MessagePrefixes[j] != [] && MessagePrefixes[j][0] in PrefixInitials;
    forall j | 0 <= j < |MessagePrefixes|
      ensures !StartsWith(msg, MessagePrefixes[j])
    {
      DiffersAt(msg, MessagePrefixes[j], 0);
    }
  }

  /** Every message about an external call, whatever follows, is a
      "calling-external" info, as "calling external: ev_default_loop(0)" in
      the unit tests. */
  lemma CallingExternalMessages(rest: string)
    ensures FailureInfoId("calling external" + rest) == "calling-external"
  {
    var msg := "calling external" + rest;
    DiffersAt(msg, MessagePrefixes[0], 0);
    DiffersAt(msg, MessagePrefixes[1], 0);
    StartsWithConcat("calling external", rest);
    TableIdIff(msg, 2);
  }

  /** Every message about a symbol that failed to load is a
      "symbol-loading" failure, as "unable to load
      symbol(_ZN4dcpp4Text13systemCharsetE) while initializing globals." in
      the unit tests. */
  lemma SymbolLoadingMessages(rest: string)
    ensures FailureInfoId("unable to load symbol" + rest) == "symbol-loading"
  {
    var msg := "unable to load symbol" + rest;
    assert msg[0] == 'u' && msg[2] == 'a';
    DiffersAt(msg, MessagePrefixes[0], 2);
    DiffersAt(msg, MessagePrefixes[1], 2);
    forall j | 2 <= j < 7
      ensures !StartsWith(msg, MessagePrefixes[j])
    {
      DiffersAt(msg, MessagePrefixes[j], 0);
    }
    StartsWithConcat("unable to load symbol", rest);
    TableIdIff(msg, 7);
  }

  lemma SilentlyIgnoringExample()
    ensures FailureInfoId("__syscall_rt_sigaction: " + "silently ignoring") == "silently-ignoring"
  {
    var head := "__syscall_rt_sigaction: ";
    var msg := head + SilentlyIgnoring;
    NoPrefixFromInitial(msg);
    MissingCharNotContained(msg, InlineAsm, 0);
    OccursAtConcat(head, SilentlyIgnoring, "");
    assert msg + "" == msg;
    ContainsIffOccurs(msg, SilentlyIgnoring);
    FragmentIdsIff(msg);
  }

  lemma InlineAsmExample()
    ensures FailureInfoId("WARNING ONCE: function \"socket\" " + "has inline asm") == "inline-asm"
  {
    var head := "WARNING ONCE: function \"socket\" ";
    var msg := head + InlineAsm;
    NoPrefixFromInitial(msg);
    OccursAtConcat(head, InlineAsm, "");
    assert msg + "" == msg;
    ContainsIffOccurs(msg, InlineAsm);
    FragmentIdsIff(msg);
  }

  /** A message that begins like no prefix and lacks the first character of
      every fragment is "other". */
  lemma NoRuleMatches(msg: string)
    requires msg != [] && msg[0] !in PrefixInitials
    requires InlineAsm[0] !in msg && SilentlyIgnoring[0] !in msg && PosixRuntime[0] !in msg
    ensures FailureInfoId(msg) == "other"
  {
    NoPrefixFromInitial(msg);
    MissingCharNotContained(msg, InlineAsm, 0);
    MissingCharNotContained(msg, SilentlyIgnoring, 0);
    MissingCharNotContained(msg, PosixRuntime, 0);
    FragmentIdsIff(msg);
  }

  /** A message that matches no rule, the "Invalid pointer" of the unit
      tests. */
  lemma OtherExample()
    ensures FailureInfoId("Invalid pointer") == "other"
  {
    NoRuleMatches("Invalid pointer");
  }

  // ---------------------------------------------------------------------
  // klee_warning_once
  // ---------------------------------------------------------------------

  /** The `const void *id` a caller of `klee_warning_once` passes: only its
      address matters. */
  datatype Origin = Origin(address: nat)

  /** A key of the warn-once set: the caller's id and the message, which
      is the unformatted format string, so calls that differ only in their
      arguments share a key. */
  datatype WarnKey = WarnKey(origin: Origin, msg: string)

  /** Messages about external calls carry the call's arguments, so they are
      keyed by this beginning alone. */
  const CallingExternal := "calling external"

  /** The key `klee_warning_once` files a warning under; `msg` is the
      unformatted format string. */
  function KeyOf(origin: Origin, msg: string): (key: WarnKey)
    ensures key.origin == origin
    ensures key.msg == CallingExternal || key.msg == msg
  {
    if StartsWith(msg, CallingExternal) then WarnKey(origin, CallingExternal)
    else WarnKey(origin, msg)
  }

  /** Two warnings share a key exactly when they come from the same id and
      either carry the same message or both are about external calls. */
  lemma SameKeyIff(o1: Origin, m1: string, o2: Origin, m2: string)
    ensures KeyOf(o1, m1) == KeyOf(o2, m2)
        <==> o1 == o2 && (m1 == m2 || (StartsWith(m1, CallingExternal) && StartsWith(m2, CallingExternal)))
  {
    if StartsWith(m1, CallingExternal) != StartsWith(m2, CallingExternal) {
      assert StartsWith(CallingExternal, CallingExternal);
    }
  }

  /** The function-static set of keys of `klee_warning_once`: keys are only
      ever added. */
  class WarnOnceCache {
    var keys: set<WarnKey>

    constructor()
      ensures keys == {}
    {
      keys := {};
    }

    /** `klee_warning_once`: report the warning when its key is new and
      remember the key. The result says whether it was reported. */
    method WarnOnce(origin: Origin, msg: string) returns (emitted: bool)
      modifies this
      ensures emitted <==> KeyOf(origin, msg) !in old(keys)
      ensures keys == old(keys) + {KeyOf(origin, msg)}
    {
      var key := KeyOf(origin, msg);
      emitted := key !in keys;
      if emitted {
        keys := keys + {key};
      }
    }
  }

  /** Two warnings about external calls from the same id: the first is
      reported and the second, whatever its arguments, is not. */
  method ExternalCallsWarnedOnce(origin: Origin, first: string, second: string)
    returns (firstEmitted: bool, secondEmitted: bool)
    requires StartsWith(first, CallingExternal) && StartsWith(second, CallingExternal)
    ensures firstEmitted && !secondEmitted
  {
    var cache := new WarnOnceCache();
    firstEmitted := cache.WarnOnce(origin, first);
    secondEmitted := cache.WarnOnce(origin, second);
  }

  /** The same message from two different ids is reported twice, and a
      third time from the first id it is not. */
  method OriginsWarnedSeparately(a: Origin, b: Origin, msg: string)
    returns (fromA: bool, fromB: bool, againFromA: bool)
    requires a != b
    ensures fromA && fromB && !againFromA
  {
    var cache := new WarnOnceCache();
    fromA := cache.WarnOnce(a, msg);
    fromB := cache.WarnOnce(b, msg);
    againFromA := cache.WarnOnce(a, msg);
  }

  // ---------------------------------------------------------------------
  // Routing in klee_vmessage
  // ---------------------------------------------------------------------

  /** The prefixes the reporting entry points pass. */
  const WarningPrefix := "WARNING"
  const WarningOncePrefix := "WARNING ONCE"
  const ErrorPrefix := "ERROR"
  const NotePrefix := "NOTE"

  /** What `klee_vmessage` writes to the Firehose file. */
  datatype FirehoseElement = InfoElement(info: Info) | FailureElement(failure: Failure)

  /** The Firehose element `klee_vmessage` builds for a message with prefix
      `pfx` (none for plain messages), when the Firehose file is open
      (`sinkOpen`), or none. */
  function FirehoseElementFor(pfx: Option<string>, sinkOpen: bool, formatted: string): (e: Option<FirehoseElement>)
    ensures e.Some? <==> pfx.Some? && sinkOpen
                         && (StartsWith(pfx.value, WarningPrefix) || pfx.value == NotePrefix || pfx.value == ErrorPrefix)
    ensures e.Some? && e.value.InfoElement? ==>
      e.value.info == Info(FailureInfoId(formatted), Message(formatted))
    ensures e.Some? && e.value.FailureElement? ==>
      e.value.failure == Failure(FailureInfoId(formatted), Message(formatted), DummyLocation)
    ensures e.Some? ==> (e.value.FailureElement? <==> !StartsWith(pfx.value, WarningPrefix) && pfx.value == ErrorPrefix)
  {
    if pfx.None? || !sinkOpen then None
    else
      var id := FailureInfoId(formatted);
      if StartsWith(pfx.value, WarningPrefix) || pfx.value == NotePrefix then
        Some(InfoElement(Info(id, Message(formatted))))
      else if pfx.value == ErrorPrefix then
        Some(FailureElement(Failure(id, Message(formatted))))
      else None
  }

  /** `klee_message` and `klee_message_to_file` pass no prefix, so they never
      produce a Firehose element. */
  lemma PlainMessagesNotRouted(sinkOpen: bool, formatted: string)
    ensures FirehoseElementFor(None, sinkOpen, formatted) == None
  {
  }

  /** `klee_warning` and `klee_warning_once` produce an Info and `klee_error`
      a Failure, each carrying the classifier's id for the message, as long
      as the Firehose file is open. */
  lemma EntryPointsRouted(formatted: string)
    ensures FirehoseElementFor(Some(WarningPrefix), true, formatted)
         == Some(InfoElement(Info(FailureInfoId(formatted), Message(formatted))))
    ensures FirehoseElementFor(Some(WarningOncePrefix), true, formatted)
         == Some(InfoElement(Info(FailureInfoId(formatted), Message(formatted))))
    ensures FirehoseElementFor(Some(ErrorPrefix), true, formatted)
         == Some(FailureElement(Failure(FailureInfoId(formatted), Message(formatted), DummyLocation)))
  {
    assert StartsWith(WarningPrefix, WarningPrefix);
    assert WarningOncePrefix[..7] == WarningPrefix;
    assert !StartsWith(ErrorPrefix, WarningPrefix) by {
      DiffersAt(ErrorPrefix, WarningPrefix, 0);
    }
  }

  /** `klee_error` builds its Failure with whatever id the classifier gives,
      so the ids the header allows a Failure to carry are not guaranteed: an
      error "Out of memory" gets the id "other". */
  lemma ErrorFailureIdNotRestricted()
    ensures FirehoseElementFor(Some(ErrorPrefix), true, "Out of memory").Some?
    ensures !IsFailureId(FirehoseElementFor(Some(ErrorPrefix), true, "Out of memory").value.failure.id)
  {
    var msg := "Out of memory";
    NoRuleMatches(msg);
    EntryPointsRouted(msg);
  }
}
