/** Error reporting: the messages the core logs, the host's error sink, the
    traversal context stack and the logger that decorates every message with
    the top of that stack (SandboxContextLogger). */
module Diagnostics {

  /** Every error the core can log, with the names it mentions. */
  datatype Message =
    | InvalidPattern(pattern: string, error: string)
    | UnresolvedType(typeName: string)
    | IncompatibleProxy(original: string, proxy: string)
    | BlacklistedType(typeName: string)
    | BlacklistedMethod(methodName: string)
    | MethodReferencesBlacklistedType(methodName: string, typeName: string)
    | MissingProxyMethod(methodName: string, proxyName: string)
    | AmbiguousProxyMethod(methodName: string, proxyName: string)
    | BlacklistedField(fieldName: string)
    | FieldReferencesBlacklistedType(fieldName: string, typeName: string)
    | MissingProxyField(fieldName: string, proxyName: string)
    | AmbiguousProxyField(fieldName: string, proxyName: string)

  /** The line break Environment.NewLine puts between a bad pattern and its exception. */
  const NewLine: string := "\n"

  /** The text of a message, as the format strings of the core render it. */
  function Text(m: Message): string {
    match m
    case InvalidPattern(p, e) => "Invalid access list pattern: " + p + NewLine + e
    case UnresolvedType(t) => "Failed to resolve type '" + t + "'"
    case IncompatibleProxy(o, p) => "Type '" + o + "' is not compatible with '" + p + "'"
    case BlacklistedType(t) => "Referenced blacklisted type '" + t + "'"
    case BlacklistedMethod(x) => "Referenced blacklisted method '" + x + "'"
    case MethodReferencesBlacklistedType(x, t) => "Method '" + x + "' references blacklisted type '" + t + "'"
    case MissingProxyMethod(x, p) => "Method '" + x + "' doesn't exist in its proxy type ('" + p + "')"
    case AmbiguousProxyMethod(x, p) => "Method '" + x + "' matches multiple methods its proxy type ('" + p + "')"
    case BlacklistedField(x) => "Referenced blacklisted field '" + x + "'"
    case FieldReferencesBlacklistedType(x, t) => "Field '" + x + "' references blacklisted type '" + t + "'"
    case MissingProxyField(x, p) => "Field '" + x + "' doesn't exist in its proxy type ('" + p + "')"
    case AmbiguousProxyField(x, p) => "Field '" + x + "' matches multiple fields its proxy type ('" + p + "')"
  }

  /** One error as the host receives it: the text, tagged with the message it came from. */
  datatype LoggedError = LoggedError(cause: Message, text: string)

  /** The host's error sink (the build's logger): an append-only record. */
  class Sink {
    var errors: seq<LoggedError>

    constructor ()
      ensures errors == []
    {
      errors := [];
    }

    method LogError(cause: Message, text: string)
      modifies this
      ensures errors == old(errors) + [LoggedError(cause, text)]
    {
      errors := errors + [LoggedError(cause, text)];
    }
  }

  /** A definition the walker is inside of, with the FullName a message names it by. */
  datatype Member = TypeMember(typeId: nat) | MethodMember(methodId: nat)
  datatype Frame = Frame(member: Member, fullName: string)

  /** The traversal context Stack<MemberReference>; the top is the last frame. */
  class ContextStack {
    var frames: seq<Frame>

    constructor ()
      ensures frames == []
    {
      frames := [];
    }

    method Push(f: Frame)
      modifies this
      ensures frames == old(frames) + [f]
    {
      frames := frames + [f];
    }

    method Pop() returns (f: Frame)
      requires frames != []
      modifies this
      ensures old(frames) == frames + [f]
    {
      f := frames[|frames| - 1];
      frames := frames[..|frames| - 1];
    }
  }

  /** The text the context logger hands on for `m` while `frames` is the context. */
  function Forwarded(m: Message, frames: seq<Frame>): string {
    if |frames| == 0 then Text(m)
    else Text(m) + " in '" + frames[|frames| - 1].fullName + "'"
  }

  /** The message text always comes first, and it is handed on unchanged
      exactly when the context is empty. */
  lemma ForwardedKeepsMessage(m: Message, frames: seq<Frame>)
    ensures Text(m) <= Forwarded(m, frames)
    ensures Forwarded(m, frames) == Text(m) <==> frames == []
  {
    if frames != [] {
      assert |Forwarded(m, frames)| > |Text(m)|;
    }
  }

  /** Only the top of the context matters, never what lies beneath it. */
  lemma ForwardedSeesOnlyTop(m: Message, below1: seq<Frame>, below2: seq<Frame>, top: Frame)
    ensures Forwarded(m, below1 + [top]) == Forwarded(m, below2 + [top])
    ensures Forwarded(m, below1 + [top]) == Text(m) + " in '" + top.fullName + "'"
  {
  }

  /** SandboxContextLogger: forwards each error once, suffixed with the top of the context. */
  class ContextLogger {
    const inner: Sink
    const context: ContextStack

    constructor (inner: Sink, context: ContextStack)
      ensures this.inner == inner && this.context == context
    {
      this.inner := inner;
      this.context := context;
    }

    /** Forwards exactly one error; the context is only read. */
    method LogError(m: Message)
      modifies inner
      ensures inner.errors == old(inner.errors) + [LoggedError(m, Forwarded(m, context.frames))]
    {
      if |context.frames| == 0 {
        inner.LogError(m, Text(m));
        return;
      }
      inner.LogError(m, Text(m) + " in '" + context.frames[|context.frames| - 1].fullName + "'");
    }
  }
}
