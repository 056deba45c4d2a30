/** API tokens: verification behind a prefix filter, revocation, and the throttle on last_used_at
    (internal/apitoken/store.go). Hash comparison is a parameter. Times are nanoseconds. */
module ApiTokens {
  import opened Options
  import opened Spacing

  const TOKEN_PREFIX := "bb_"
  const PREFIX_LENGTH := 8
  const LAST_USED_THROTTLE: int := 60_000_000_000

  datatype Revocation = Revocation(at: int, revokedBy: string)

  datatype Token = Token(id: nat, userId: int, username: string, caption: string, prefix: string, hash: string,
                         revocation: Option<Revocation>)
  {
    predicate Revoked() {
      revocation.Some?
    }
  }

  type HashMatches = (string, string) -> bool

  /** The stored prefix of a presented token: eight characters behind "bb_". */
  function ParsePrefix(plaintext: string): Option<string> {
    if !(TOKEN_PREFIX <= plaintext) then None
    else
      var body := plaintext[|TOKEN_PREFIX|..];
      if |body| < PREFIX_LENGTH then None else Some(body[..PREFIX_LENGTH])
  }

  lemma PrefixSpelled(plaintext: string)
    ensures ParsePrefix(plaintext).Some? <==> |plaintext| >= 11 && plaintext[..3] == "bb_"
    ensures ParsePrefix(plaintext).Some? ==> ParsePrefix(plaintext).value == plaintext[3..11]
  {
    assert TOKEN_PREFIX <= plaintext <==> |plaintext| >= 3 && plaintext[..3] == "bb_";
  }

  /** A row's hash is matched only by token texts that carry the row's prefix. */
  ghost predicate PrefixConsistent(rows: seq<Token>, matches: HashMatches) {
    forall i, p {:trigger matches(rows[i].hash, p)} :: 0 <= i < |rows| && matches(rows[i].hash, p) ==>
      ParsePrefix(p) == Some(rows[i].prefix)
  }

  /** What a plain scan of all rows would accept. */
  predicate AcceptedByScan(rows: seq<Token>, plaintext: string, matches: HashMatches) {
    exists i :: 0 <= i < |rows| && !rows[i].Revoked() && matches(rows[i].hash, plaintext)
  }

  function WritesOf(writes: map<nat, seq<int>>, id: nat): seq<int> {
    if id in writes then writes[id] else []
  }

  /** The memo holds each token's last write, and a token's writes are a throttle apart. */
  ghost predicate WritesOk(memo: map<nat, int>, writes: map<nat, seq<int>>) {
    && memo.Keys == writes.Keys
    && forall id {:trigger writes[id]} :: id in writes ==>
      writes[id] != [] && memo[id] == writes[id][|writes[id]| - 1] && Apart(writes[id], LAST_USED_THROTTLE)
  }

  lemma WriteAdded(memo: map<nat, int>, writes: map<nat, seq<int>>, id: nat, now: int)
    requires WritesOk(memo, writes) && (id in memo ==> now - memo[id] >= LAST_USED_THROTTLE)
    ensures WritesOk(memo[id := now], writes[id := WritesOf(writes, id) + [now]])
  {
    ApartAppend(WritesOf(writes, id), now, LAST_USED_THROTTLE);
  }

  class TokenStore {
    var rows: seq<Token>
    var lastUsedMemo: map<nat, int>

    /** Per token, the clock readings that led to a write of last_used_at. */
    ghost var writes: map<nat, seq<int>>

    ghost predicate Valid()
      reads this
    {
      WritesOk(lastUsedMemo, writes)
    }

    constructor ()
      ensures rows == [] && Valid()
    {
      rows := [];
      lastUsedMemo := map[];
      writes := map[];
    }

    /** `encoded` is the random part of the new token, and `hash` the hash of its text, which
        only texts that begin like the token match; `stored` is false when hashing it or the insert
        fails. */
    method Generate(userId: int, username: string, caption: string, encoded: string, hash: string, stored: bool,
                    ghost matches: HashMatches)
      returns (plaintext: Option<string>)
      requires |encoded| >= PREFIX_LENGTH
      requires forall p :: matches(hash, p) ==> ParsePrefix(p) == ParsePrefix(TOKEN_PREFIX + encoded)
      modifies this`rows
      ensures plaintext.Some? <==> caption != "" && stored
      ensures plaintext.Some? ==> plaintext.value == "bb_" + encoded
      ensures plaintext.Some? ==>
        rows == old(rows) + [Token(id := |old(rows)|, userId := userId, username := username, caption := caption,
                                   prefix := encoded[..8], hash := hash, revocation := None)]
      ensures plaintext.None? ==> rows == old(rows)
      ensures old(PrefixConsistent(rows, matches)) ==> PrefixConsistent(rows, matches)
    {
      if caption == "" { return None; }
      if !stored { return None; }
      assert (TOKEN_PREFIX + encoded)[|TOKEN_PREFIX|..] == encoded;
      rows := rows + [Token(|rows|, userId, username, caption, encoded[..PREFIX_LENGTH], hash, None)];
      plaintext := Some(TOKEN_PREFIX + encoded);
    }

    /** Only the unrevoked rows with the presented prefix are compared; on a prefix-consistent
        table that accepts exactly what a scan of all rows would. */
    method Verify(plaintext: string, matches: HashMatches, now: int) returns (token: Option<Token>)
      requires Valid()
      modifies this`lastUsedMemo, this`writes
      ensures Valid()
      ensures token.Some? ==> token.value in rows && token.value.revocation.None?
      ensures token.Some? ==> matches(token.value.hash, plaintext)
      ensures token.Some? <==>
        && |plaintext| >= 11 && plaintext[..3] == "bb_"
        && exists i ::
          && 0 <= i < |rows| && rows[i].revocation.None? && rows[i].prefix == plaintext[3..11]
          && matches(rows[i].hash, plaintext)
      ensures token.Some? ==> token.value.prefix == plaintext[3..11]
      ensures PrefixConsistent(rows, matches) ==> (token.Some? <==> AcceptedByScan(rows, plaintext, matches))
      ensures token.None? ==> lastUsedMemo == old(lastUsedMemo) && writes == old(writes)
      ensures token.Some? ==>
        var id, memo := token.value.id, old(lastUsedMemo);
        if id in memo && now - memo[id] < 60_000_000_000
        then lastUsedMemo == memo && writes == old(writes)
        else lastUsedMemo == memo[id := now] && writes == old(writes)[id := WritesOf(old(writes), id) + [now]]
    {
      var prefix := ParsePrefix(plaintext);
      PrefixSpelled(plaintext);
      if prefix.None? { return None; }
      for i := 0 to |rows|
        invariant Valid() && lastUsedMemo == old(lastUsedMemo) && writes == old(writes)
        invariant forall j :: 0 <= j < i && rows[j].prefix == prefix.value && !rows[j].Revoked() ==>
          !matches(rows[j].hash, plaintext)
      {
        var t := rows[i];
        if t.prefix == prefix.value && !t.Revoked() {
          if matches(t.hash, plaintext) {
            var _ := RecordLastUsed(t.id, now);
            return Some(t);
          }
        }
      }
      token := None;
    }

    /** Idempotent: a revoked row keeps the time and the name of its first revocation. */
    method Revoke(id: nat, revokedBy: string, now: int)
      modifies this`rows
      ensures |rows| == |old(rows)|
      ensures forall i :: 0 <= i < |rows| ==>
        rows[i] == if old(rows)[i].id == id && old(rows)[i].revocation.None?
          then old(rows)[i].(revocation := Some(Revocation(at := now, revokedBy := revokedBy))) else old(rows)[i]
      ensures forall i :: 0 <= i < |rows| && rows[i].id == id ==> rows[i].revocation.Some?
    {
      rows := seq(|rows|, i requires 0 <= i < |rows| reads this =>
        if rows[i].id == id && !rows[i].Revoked()
          then rows[i].(revocation := Some(Revocation(now, revokedBy))) else rows[i]);
    }

    /** Two writes for one token are never closer than the throttle, in whatever order the
        callers' clock readings arrive. */
    method RecordLastUsed(id: nat, now: int) returns (wrote: bool)
      requires Valid()
      modifies this`lastUsedMemo, this`writes
      ensures Valid()
      ensures wrote <==> !(id in old(lastUsedMemo) && now - old(lastUsedMemo)[id] < 60_000_000_000)
      ensures lastUsedMemo == if wrote then old(lastUsedMemo)[id := now] else old(lastUsedMemo)
      ensures writes == if wrote then old(writes)[id := WritesOf(old(writes), id) + [now]] else old(writes)
    {
      if id in lastUsedMemo && now - lastUsedMemo[id] < LAST_USED_THROTTLE { return false; }
      WriteAdded(lastUsedMemo, writes, id, now);
      lastUsedMemo := lastUsedMemo[id := now];
      writes := writes[id := WritesOf(writes, id) + [now]];
      wrote := true;
    }
  }
}
