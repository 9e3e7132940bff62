/** The records of the event store: events, blocks and the little datatypes around them. */
module Types {

  datatype Option<+T> = None | Some(value: T)

  /** The digest behind `stable_hash`: a build picks libsodium or the built-in fallback, so it is a parameter. */
  type HashFn = string -> string

  datatype EventKind =
    | RecipeCreated
    | ThreadCreated
    | ReplyCreated
    | ReviewAdded
    | ThumbsUpAdded
    | BlockRewardClaimed
    | RewardTransferred
    | ProfileUpdated
    | KeyRotated
    | ModeratorAdded
    | ModeratorRemoved
    | ContentFlagged
    | ContentHidden
    | ContentUnhidden
    | CoreTopicPinned
    | CoreTopicUnpinned
    | PolicyUpdated

  datatype Event = Event(
    id: string,
    kind: EventKind,
    author: string,
    ts: int,
    payload: string,
    signature: string)

  datatype Block = Block(
    index: nat,
    openedUnix: int,
    reserved: bool,
    confirmed: bool,
    backfilled: bool,
    eventIds: seq<string>,
    psz: string,
    prevHash: string,
    merkleRoot: string,
    contentHash: string,
    blockHash: string)

  const I64_MAX := 0x7fff_ffff_ffff_ffff
  const U64_MAX := 0xffff_ffff_ffff_ffff

  /** The values an `int64_t` can hold. */
  predicate IsI64(n: int) { -I64_MAX - 1 <= n <= I64_MAX }

  predicate IsPostKind(kind: EventKind) {
    kind.RecipeCreated? || kind.ThreadCreated? || kind.ReplyCreated? || kind.ReviewAdded? || kind.ThumbsUpAdded?
  }

  predicate IsModerationKind(kind: EventKind) {
    kind.ModeratorAdded? || kind.ModeratorRemoved? || kind.ContentFlagged? || kind.ContentHidden? ||
    kind.ContentUnhidden? || kind.CoreTopicPinned? || kind.CoreTopicUnpinned? || kind.PolicyUpdated?
  }

  function Field(payload: map<string, string>, key: string, default: string): string {
    if key in payload then payload[key] else default
  }

  function Max(a: int, b: int): int { if a < b then b else a }

  function Min(a: int, b: int): int { if b < a then b else a }
}
