/** SandboxAccessList: an ordered list of allow/deny rules, evaluated first match wins. */
module AccessLists {
  import opened Wrappers
  import opened Diagnostics

  /** How an entry matches (ProxyAccessListType). */
  datatype ListKind = Regex | Namespace | NamespaceStart

  /** What a matching entry decides (ProxyAccessListMode). */
  datatype ListMode = Allow | Deny

  /** The outcome of compiling a pattern with System.Text.RegularExpressions:
      the compiled regex as its IsMatch predicate, or the exception's text. */
  datatype Compilation = Compiled(isMatch: string -> bool) | Invalid(error: string)

  /** An entry: a Regex entry holds its compiled pattern, the namespace kinds
      the namespace string they compare with. */
  datatype Entry =
    | RegexEntry(mode: ListMode, isMatch: string -> bool)
    | NamespaceEntry(mode: ListMode, value: string)
    | NamespaceStartEntry(mode: ListMode, value: string)
  {
    function Kind(): ListKind {
      match this
      case RegexEntry(_, _) => Regex
      case NamespaceEntry(_, _) => Namespace
      case NamespaceStartEntry(_, _) => NamespaceStart
    }
  }

  /** What an entry is tested against: the FullName a Regex entry matches and
      the namespace the namespace kinds compare (for a type its own namespace,
      for a method or field that of its declaring type). */
  datatype Subject = Subject(fullName: string, ns: string)

  /** Whether one entry applies (the `continue` tests of IsBlacklisted).
      String.StartsWith is taken as a plain sequence prefix. */
  predicate Matches(e: Entry, s: Subject) {
    match e
    case RegexEntry(_, isMatch) => isMatch(s.fullName)
    case NamespaceEntry(_, value) => s.ns == value
    case NamespaceStartEntry(_, value) => value <= s.ns
  }

  /** The index of the first entry that applies, if any. */
  function FirstMatch(entries: seq<Entry>, s: Subject): (r: Option<nat>)
    ensures r.Some? ==> r.value < |entries| && Matches(entries[r.value], s)
    ensures r.Some? ==> forall j :: 0 <= j < r.value ==> !Matches(entries[j], s)
    ensures r.None? ==> forall j :: 0 <= j < |entries| ==> !Matches(entries[j], s)
  {
    if |entries| == 0 then None
    else if Matches(entries[0], s) then Some(0)
    else match FirstMatch(entries[1..], s)
      case None => None
      case Some(k) => Some(k + 1)
  }

  /** The verdict of a list: the mode of the first entry that applies
      (Deny means blacklisted); no applicable entry means not blacklisted. */
  function Verdict(entries: seq<Entry>, s: Subject): bool {
    match FirstMatch(entries, s)
    case None => false
    case Some(i) => entries[i].mode == Deny
  }

  /** Any entry that applies first decides; nothing else is consulted. */
  lemma VerdictIsFirstMatchingMode(entries: seq<Entry>, s: Subject, i: nat)
    requires i < |entries| && Matches(entries[i], s)
    requires forall j :: 0 <= j < i ==> !Matches(entries[j], s)
    ensures Verdict(entries, s) <==> entries[i].mode == Deny
  {
  }

  /** With no applicable entry, including the empty list, nothing is blacklisted. */
  lemma NoMatchMeansAllowed(entries: seq<Entry>, s: Subject)
    requires forall j :: 0 <= j < |entries| ==> !Matches(entries[j], s)
    ensures !Verdict(entries, s)
  {
  }

  /** Entries after the first applicable one are never consulted. */
  lemma {:induction false} LaterEntriesIgnored(entries: seq<Entry>, later: seq<Entry>, s: Subject)
    requires exists j :: 0 <= j < |entries| && Matches(entries[j], s)
    ensures Verdict(entries + later, s) == Verdict(entries, s)
  {
    var i := FirstMatch(entries, s);
    if i.Some? {
      var all := entries + later;
      assert all[i.value] == entries[i.value];
      forall j | 0 <= j < i.value
        ensures !Matches(all[j], s)
      {
        assert all[j] == entries[j];
      }
      VerdictIsFirstMatchingMode(all, s, i.value);
    }
  }

  /** Appending one entry matters only when no earlier entry applies. */
  lemma {:induction false} AppendedEntryDecidesOnlyWhenNothingEarlier(entries: seq<Entry>, e: Entry, s: Subject)
    ensures FirstMatch(entries, s).Some? ==> Verdict(entries + [e], s) == Verdict(entries, s)
    ensures FirstMatch(entries, s).None? ==> Verdict(entries + [e], s) == (Matches(e, s) && e.mode == Deny)
  {
    var all := entries + [e];
    match FirstMatch(entries, s)
    case Some(i) =>
      LaterEntriesIgnored(entries, [e], s);
    case None =>
      forall j | 0 <= j < |entries|
        ensures !Matches(all[j], s)
      {
        assert all[j] == entries[j];
      }
      if Matches(e, s) {
        VerdictIsFirstMatchingMode(all, s, |entries|);
      } else {
        NoMatchMeansAllowed(all, s);
      }
  }

  /** Order matters: a broad deny listed before a narrower allow still denies. */
  lemma BroadDenyBeforeNarrowAllow()
    ensures Verdict([NamespaceStartEntry(Deny, "Foo"), NamespaceStartEntry(Allow, "Foo.Bar")], Subject("Foo.Bar.Baz.T", "Foo.Bar.Baz"))
    ensures !Verdict([NamespaceStartEntry(Allow, "Foo.Bar"), NamespaceStartEntry(Deny, "Foo")], Subject("Foo.Bar.Baz.T", "Foo.Bar.Baz"))
  {
    var s := Subject("Foo.Bar.Baz.T", "Foo.Bar.Baz");
    assert "Foo" <= s.ns;
    assert "Foo.Bar" <= s.ns;
    VerdictIsFirstMatchingMode([NamespaceStartEntry(Deny, "Foo"), NamespaceStartEntry(Allow, "Foo.Bar")], s, 0);
    VerdictIsFirstMatchingMode([NamespaceStartEntry(Allow, "Foo.Bar"), NamespaceStartEntry(Deny, "Foo")], s, 0);
  }

  /** A Namespace entry applies only to that exact namespace, a NamespaceStart
      entry to every namespace it is a prefix of. */
  lemma NamespaceKindsCompareNamespaceOnly(mode: ListMode, value: string, s: Subject, t: Subject)
    requires s.ns == t.ns
    ensures Matches(NamespaceEntry(mode, value), s) <==> s.ns == value
    ensures Matches(NamespaceStartEntry(mode, value), s) <==> value <= s.ns
    ensures Matches(NamespaceEntry(mode, value), s) == Matches(NamespaceEntry(mode, value), t)
    ensures Matches(NamespaceStartEntry(mode, value), s) == Matches(NamespaceStartEntry(mode, value), t)
  {
  }

  /** SandboxAccessList: the entries in insertion order. */
  class AccessList {
    const logger: Sink
    const compile: string -> Compilation
    var entries: seq<Entry>

    constructor (logger: Sink, compile: string -> Compilation)
      ensures this.logger == logger && this.compile == compile
      ensures entries == []
    {
      this.logger := logger;
      this.compile := compile;
      entries := [];
    }

    /** Add: a namespace entry, or a Regex entry whose pattern compiles, is
        appended at the end; a pattern that does not compile is logged once
        and the list stays as it was. */
    method Add(kind: ListKind, mode: ListMode, pattern: string)
      modifies this, logger
      ensures kind == Regex && compile(pattern).Invalid? ==>
        entries == old(entries) &&
        logger.errors == old(logger.errors) + [LoggedError(InvalidPattern(pattern, compile(pattern).error), Text(InvalidPattern(pattern, compile(pattern).error)))]
      ensures kind == Regex && compile(pattern).Compiled? ==>
        entries == old(entries) + [RegexEntry(mode, compile(pattern).isMatch)] && logger.errors == old(logger.errors)
      ensures kind == Namespace ==>
        entries == old(entries) + [NamespaceEntry(mode, pattern)] && logger.errors == old(logger.errors)
      ensures kind == NamespaceStart ==>
        entries == old(entries) + [NamespaceStartEntry(mode, pattern)] && logger.errors == old(logger.errors)
    {
      match kind
      case Regex =>
        match compile(pattern) {
          case Invalid(error) =>
            logger.LogError(InvalidPattern(pattern, error), Text(InvalidPattern(pattern, error)));
            return;
          case Compiled(isMatch) =>
            entries := entries + [RegexEntry(mode, isMatch)];
        }
      case Namespace =>
        entries := entries + [NamespaceEntry(mode, pattern)];
      case NamespaceStart =>
        entries := entries + [NamespaceStartEntry(mode, pattern)];
    }

    /** IsBlacklisted (one body for the type, method and field overloads, which
        differ only in the Subject they test): scans the entries in order and
        returns at the first that applies. */
    method IsBlacklisted(s: Subject) returns (blacklisted: bool)
      ensures blacklisted == Verdict(entries, s)
    {
      var i := 0;
      while i < |entries|
        invariant 0 <= i <= |entries|
        invariant forall j :: 0 <= j < i ==> !Matches(entries[j], s)
      {
        var entry := entries[i];
        if Matches(entry, s) {
          VerdictIsFirstMatchingMode(entries, s, i);
          match entry.mode
          case Allow => return false;
          case Deny => return true;
        }
        i := i + 1;
      }
      NoMatchMeansAllowed(entries, s);
      return false;
    }
  }
}
