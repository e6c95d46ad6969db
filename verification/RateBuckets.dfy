/** The request classifier of backend/src/rate-limits.ts: which one bucket a request counts against. */
module RateBuckets {
  import opened Optional

  datatype Bucket =
    | Verification | ConnectorCompanion | ConnectorMeetings | Delegation | GoogleOAuth
    | CalendarAutojoin | CalendarAutojoinMutation | Transcriber | PrivateCloudTranscription
    | PrivateCloudTranscriptionMutation | HostedUpload | PaidChat | Auth | CredentialCount | Global | Exempt

  datatype Row = Row(mounts: seq<string>, bucket: Bucket)

  // ---- Paths --------------------------------------------------------------------------------------

  function LowerChar(c: char): char { if 'A' <= c <= 'Z' then (c as int + 32) as char else c }

  function Lower(s: string): string { seq(|s|, i requires 0 <= i < |s| => LowerChar(s[i])) }

  /** replace(/\/{2,}/g, "/") */
  function CollapseSlashes(s: string): string {
    if |s| < 2 then s else if s[0] == '/' && s[1] == '/' then CollapseSlashes(s[1..])
    else [s[0]] + CollapseSlashes(s[1..])
  }

  function WithoutTrailingSlash(s: string): string { if |s| > 1 && s[|s| - 1] == '/' then s[..|s| - 1] else s }

  predicate MatchesMount(path: string, mount: string) { path == mount || mount + "/" <= path }

  predicate IsUnlimited(path: string) { path == "/health" || path == "/health/" }

  // ---- The table and the classifier ---------------------------------------------------------------

  const PREFIX_BUCKETS: seq<Row> := [
    Row(["/api/transcriber/private-cloud"], PrivateCloudTranscription),
    Row(["/api/transcriber/assemblyai/hosted/uploads"], HostedUpload),
    Row(["/api/transcriber"], Transcriber),
    Row(["/api/signature", "/api/nras-proxy", "/api/phala-verify", "/api/attestation/self"], Verification),
    Row(["/api/connectors/webhooks"], ConnectorCompanion),
    Row(["/api/connectors/meetings"], ConnectorMeetings),
    Row(["/api/delegations"], Delegation),
    Row(["/api/connectors/google/oauth"], GoogleOAuth),
    Row(["/api/connectors/google/autojoin"], CalendarAutojoin),
    Row(["/api/auth"], Auth),
    Row(["/api/internal/credential-row-count"], CredentialCount),
    Row(["/api/internal/assemblyai-status"], CredentialCount)]

  predicate IsRead(verb: string) { verb == "GET" || verb == "HEAD" }

  function MutationBucket(bucket: Bucket): Option<Bucket> {
    match bucket
    case PrivateCloudTranscription => Some(PrivateCloudTranscriptionMutation)
    case CalendarAutojoin => Some(CalendarAutojoinMutation)
    case _ => None
  }

  /** The bucket of a matched row for the request's method. */
  function RowBucket(bucket: Bucket, verb: string): Bucket {
    if MutationBucket(bucket).Some? && !IsRead(verb) then MutationBucket(bucket).value else bucket
  }

  predicate RowMatches(row: Row, path: string) { exists m :: m in row.mounts && MatchesMount(path, m) }

  function FirstMatch(table: seq<Row>, path: string): Option<Bucket> {
    if table == [] then None else if RowMatches(table[0], path) then Some(table[0].bucket)
    else FirstMatch(table[1..], path)
  }

  predicate IsPaidChat(verb: string, path: string) {
    verb == "POST" && (WithoutTrailingSlash(path) == "/api/chat" || WithoutTrailingSlash(path) == "/api/agent/chat")
  }

  function BucketFor(verb: string, rawPath: string): Bucket {
    var path := CollapseSlashes(Lower(rawPath));
    if IsUnlimited(Lower(rawPath)) then Exempt
    else if IsPaidChat(verb, path) then PaidChat
    else match FirstMatch(PREFIX_BUCKETS, path) case None => Global case Some(b) => RowBucket(b, verb)
  }

  lemma {:induction false} NoMatchBefore(table: seq<Row>, path: string, i: nat)
    requires i <= |table| && forall j :: 0 <= j < i ==> !RowMatches(table[j], path)
    ensures FirstMatch(table, path) == FirstMatch(table[i..], path)
    decreases i
  {
    if i > 0 { NoMatchBefore(table[1..], path, i - 1); }
  }

  /** The classifier's loop over the table. */
  method Classify(verb: string, rawPath: string) returns (bucket: Bucket)
    ensures bucket == BucketFor(verb, rawPath)
  {
    hide CollapseSlashes, FirstMatch, RowMatches;
    if IsUnlimited(Lower(rawPath)) { return Exempt; }
    var path := CollapseSlashes(Lower(rawPath));
    if IsPaidChat(verb, path) { return PaidChat; }
    for i := 0 to |PREFIX_BUCKETS|
      invariant forall j :: 0 <= j < i ==> !RowMatches(PREFIX_BUCKETS[j], path)
    {
      if RowMatches(PREFIX_BUCKETS[i], path) {
        NoMatchBefore(PREFIX_BUCKETS, path, i);
        HeadMatch(PREFIX_BUCKETS[i..], path);
        return RowBucket(PREFIX_BUCKETS[i].bucket, verb);
      }
    }
    NoMatchBefore(PREFIX_BUCKETS, path, |PREFIX_BUCKETS|);
    assert PREFIX_BUCKETS[|PREFIX_BUCKETS|..] == [];
    EmptyMatch(path);
    return Global;
  }

  lemma HeadMatch(table: seq<Row>, path: string)
    requires table != [] && RowMatches(table[0], path)
    ensures FirstMatch(table, path) == Some(table[0].bucket)
  {}

  lemma EmptyMatch(path: string)
    ensures FirstMatch([], path) == None
  {}

  /** A mount contains its own path and every path that goes on after it with a slash. */
  lemma MountIff(path: string, mount: string)
    ensures MatchesMount(path, mount) <==>
      |mount| <= |path| && path[..|mount|] == mount && (|path| > |mount| ==> path[|mount|] == '/')
  {
    if |path| > |mount| && path[..|mount|] == mount && path[|mount|] == '/' {
      assert path[..|mount| + 1] == mount + "/";
    }
    if mount + "/" <= path { assert path[..|mount| + 1] == mount + "/" && path[|mount|] == (mount + "/")[|mount|]; }
  }

  // ---- First match is longest match ---------------------------------------------------------------

  /** No mount contains a different mount of the same row or any mount of a later one. */
  ghost predicate MostSpecificFirst(table: seq<Row>) {
    forall i, j, a, b ::
      0 <= i <= j < |table| && a in table[i].mounts && b in table[j].mounts && (i < j || a != b) ==> !MatchesMount(b, a)
  }

  /** m is a longest mount of the table that contains the path, and its row has this bucket. */
  ghost predicate LongestMount(table: seq<Row>, path: string, m: string, bucket: Bucket) {
    && MatchesMount(path, m)
    && (exists row :: row in table && m in row.mounts && row.bucket == bucket)
    && forall row, other :: row in table && other in row.mounts && MatchesMount(path, other) ==> |other| <= |m|
  }

  /** Of two mounts containing a path, the longer one is nested in the shorter. */
  lemma MountsNest(path: string, a: string, b: string)
    requires MatchesMount(path, a) && MatchesMount(path, b)
    ensures |a| <= |b| ==> MatchesMount(b, a)
  {
    assert path[..|a|] == a && path[..|b|] == b;
    if |a| < |b| {
      assert path[|a|] == (a + "/")[|a|] == '/';
      assert b[..|a| + 1] == path[..|a| + 1];
      assert a + "/" == b[..|a| + 1];
    }
  }

  lemma OtherIsNotLonger(table: seq<Row>, path: string, m: string, row: Row, other: string)
    requires MostSpecificFirst(table) && table != [] && m in table[0].mounts && row in table && other in row.mounts
    requires MatchesMount(path, m) && MatchesMount(path, other)
    ensures |other| <= |m|
  {
    hide MatchesMount;
    if m != other {
      var j :| 0 <= j < |table| && table[j] == row;
      assert !MatchesMount(other, m);
      MountsNest(path, m, other);
    }
  }

  /** In a table with the most specific rows first, the first match is the longest one. */
  lemma {:induction false} FirstIsLongest(table: seq<Row>, path: string)
    requires MostSpecificFirst(table)
    ensures match FirstMatch(table, path)
            case None => forall row, m :: row in table && m in row.mounts ==> !MatchesMount(path, m)
            case Some(bucket) => exists m :: LongestMount(table, path, m, bucket)
  {
    hide MatchesMount;
    if table != [] {
      if RowMatches(table[0], path) {
        HeadMatch(table, path);
        var m :| m in table[0].mounts && MatchesMount(path, m);
        forall row, other | row in table && other in row.mounts && MatchesMount(path, other) ensures |other| <= |m| {
          OtherIsNotLonger(table, path, m, row, other);
        }
        assert LongestMount(table, path, m, table[0].bucket);
      } else {
        var rest := table[1..];
        assert MostSpecificFirst(rest) by {
          forall i, j, a, b | 0 <= i <= j < |rest| && a in rest[i].mounts && b in rest[j].mounts && (i < j || a != b)
            ensures !MatchesMount(b, a)
          {
            assert rest[i] == table[i + 1] && rest[j] == table[j + 1];
          }
        }
        FirstIsLongest(rest, path);
        NoMatchBefore(table, path, 1);
        if FirstMatch(rest, path).Some? {
          var m :| LongestMount(rest, path, m, FirstMatch(rest, path).value);
          assert LongestMount(table, path, m, FirstMatch(rest, path).value);
        }
      }
    }
  }

  /** Different at a position inside both, so neither contains the other. */
  lemma DifferAt(a: string, b: string, k: nat)
    requires k < |a| && k < |b| && a[k] != b[k]
    ensures !MatchesMount(b, a) && !MatchesMount(a, b)
  {
    assert (a + "/")[k] == a[k] && (b + "/")[k] == b[k];
  }

  /** The mounts under /api/, told apart by their sixth character and one more. */
  lemma MountsDiffer(a: string, b: string)
    requires |a| > 5 && |b| > 5
    requires a[5] != b[5]
             || (|a| > 6 && |b| > 6 && a[6] != b[6]) || (|a| > 14 && |b| > 14 && a[14] != b[14])
             || (|a| > 16 && |b| > 16 && a[16] != b[16]) || (|a| > 17 && |b| > 17 && a[17] != b[17])
             || (|a| > 23 && |b| > 23 && a[23] != b[23]) || |b| < |a|
    ensures !MatchesMount(b, a)
  {
    if a[5] != b[5] { DifferAt(a, b, 5); }
    else if |a| > 6 && |b| > 6 && a[6] != b[6] { DifferAt(a, b, 6); }
    else if |a| > 14 && |b| > 14 && a[14] != b[14] { DifferAt(a, b, 14); }
    else if |a| > 16 && |b| > 16 && a[16] != b[16] { DifferAt(a, b, 16); }
    else if |a| > 17 && |b| > 17 && a[17] != b[17] { DifferAt(a, b, 17); }
    else if |a| > 23 && |b| > 23 && a[23] != b[23] { DifferAt(a, b, 23); }
  }

  lemma FirstMountLetters(i: nat, m: string)
    requires i < 4 && m in PREFIX_BUCKETS[i].mounts
    ensures |m| > 5
    ensures i == 0 ==> |m| == 30 && m[5] == 't' && m[17] == 'p'
    ensures i == 1 ==> |m| == 42 && m[5] == 't' && m[17] == 'a'
    ensures i == 2 ==> |m| == 16 && m[5] == 't'
    ensures i == 3 ==> m[5] in "snp" || (m[5] == 'a' && |m| == 21 && m[6] == 't')
  {}

  lemma MiddleMountLetters(i: nat, m: string)
    requires 4 <= i < 8 && m in PREFIX_BUCKETS[i].mounts
    ensures |m| > 5
    ensures i == 4 ==> |m| == 24 && m[5] == 'c' && m[16] == 'w'
    ensures i == 5 ==> |m| == 24 && m[5] == 'c' && m[16] == 'm'
    ensures i == 6 ==> m[5] == 'd'
    ensures i == 7 ==> |m| == 28 && m[5] == 'c' && m[16] == 'g' && m[23] == 'o'
  {}

  lemma LastMountLetters(i: nat, m: string)
    requires 8 <= i < |PREFIX_BUCKETS| && m in PREFIX_BUCKETS[i].mounts
    ensures |m| > 5
    ensures i == 8 ==> |m| == 31 && m[5] == 'c' && m[16] == 'g' && m[23] == 'a'
    ensures i == 9 ==> |m| == 9 && m[5] == 'a' && m[6] == 'u'
    ensures i == 10 ==> |m| == 34 && m[5] == 'i' && m[14] == 'c'
    ensures i == 11 ==> |m| == 31 && m[5] == 'i' && m[14] == 'a'
  {}

  /** Letters that tell the table's mounts apart. */
  lemma MountLetters(i: nat, m: string)
    requires i < |PREFIX_BUCKETS| && m in PREFIX_BUCKETS[i].mounts
    ensures |m| > 5
    ensures i == 0 ==> |m| == 30 && m[5] == 't' && m[17] == 'p'
    ensures i == 1 ==> |m| == 42 && m[5] == 't' && m[17] == 'a'
    ensures i == 2 ==> |m| == 16 && m[5] == 't'
    ensures i == 3 ==> m[5] in "snp" || (m[5] == 'a' && |m| == 21 && m[6] == 't')
    ensures i == 4 ==> |m| == 24 && m[5] == 'c' && m[16] == 'w'
    ensures i == 5 ==> |m| == 24 && m[5] == 'c' && m[16] == 'm'
    ensures i == 6 ==> m[5] == 'd'
    ensures i == 7 ==> |m| == 28 && m[5] == 'c' && m[16] == 'g' && m[23] == 'o'
    ensures i == 8 ==> |m| == 31 && m[5] == 'c' && m[16] == 'g' && m[23] == 'a'
    ensures i == 9 ==> |m| == 9 && m[5] == 'a' && m[6] == 'u'
    ensures i == 10 ==> |m| == 34 && m[5] == 'i' && m[14] == 'c'
    ensures i == 11 ==> |m| == 31 && m[5] == 'i' && m[14] == 'a'
  {
    if i < 4 { FirstMountLetters(i, m); } else if i < 8 { MiddleMountLetters(i, m); } else { LastMountLetters(i, m); }
  }

  lemma RowThree(a: string, b: string)
    requires a in PREFIX_BUCKETS[3].mounts && b in PREFIX_BUCKETS[3].mounts && a != b
    ensures |a| > 5 && |b| > 5 && a[5] != b[5]
  {}

  /** The code's table has the most specific rows first. */
  lemma TableIsMostSpecificFirst()
    ensures MostSpecificFirst(PREFIX_BUCKETS)
  {
    forall i, j, a, b | 0 <= i <= j < |PREFIX_BUCKETS| && a in PREFIX_BUCKETS[i].mounts
      && b in PREFIX_BUCKETS[j].mounts && (i < j || a != b)
      ensures !MatchesMount(b, a)
    {
      MountLetters(i, a);
      MountLetters(j, b);
      if i == j { SameRow(i, a, b); }
      MountsDiffer(a, b);
    }
  }

  lemma SameRow(i: nat, a: string, b: string)
    requires i < |PREFIX_BUCKETS| && a in PREFIX_BUCKETS[i].mounts && b in PREFIX_BUCKETS[i].mounts && a != b
    ensures i == 3 && |a| > 5 && |b| > 5 && a[5] != b[5]
  {
    if i == 3 { RowThree(a, b); }
  }

  ghost predicate NoMount(table: seq<Row>, path: string) {
    forall row, m :: row in table && m in row.mounts ==> !MatchesMount(path, m)
  }

  /** Private-cloud and autojoin requests that do not read count against the small mutation buckets. */
  ghost predicate ForVerb(b: Bucket, verb: string, bucket: Bucket) {
    var isRead := verb in ["GET", "HEAD"];
    if b == PrivateCloudTranscription && !isRead then bucket == PrivateCloudTranscriptionMutation
    else if b == CalendarAutojoin && !isRead then bucket == CalendarAutojoinMutation
    else bucket == b
  }

  /** The bucket, or its mutation bucket, of a longest mount containing the path. */
  ghost predicate OfLongestMount(table: seq<Row>, path: string, verb: string, bucket: Bucket) {
    exists m, b :: LongestMount(table, path, m, b) && ForVerb(b, verb, bucket)
  }

  lemma RowBucketIs(b: Bucket, verb: string)
    ensures ForVerb(b, verb, RowBucket(b, verb))
  {}

  lemma FirstMatchBucket(table: seq<Row>, path: string, verb: string)
    requires MostSpecificFirst(table)
    ensures match FirstMatch(table, path) case None => NoMount(table, path)
        case Some(b) => OfLongestMount(table, path, verb, RowBucket(b, verb))
  {
    FirstIsLongest(table, path);
    hide FirstMatch, MostSpecificFirst, LongestMount;
    if FirstMatch(table, path).Some? {
      RowBucketIs(FirstMatch(table, path).value, verb);
      hide RowBucket, ForVerb;
      var m :| LongestMount(table, path, m, FirstMatch(table, path).value);
    }
  }

  /** Outside /health and paid chat, the bucket is that of the longest mount containing the path, or its
      mutation bucket, and global exactly when no mount contains it. */
  lemma BucketOfLongestMount(verb: string, rawPath: string)
    requires BucketFor(verb, rawPath) != Exempt && BucketFor(verb, rawPath) != PaidChat
    ensures var path := CollapseSlashes(Lower(rawPath));
            if BucketFor(verb, rawPath) == Global then NoMount(PREFIX_BUCKETS, path)
            else OfLongestMount(PREFIX_BUCKETS, path, verb, BucketFor(verb, rawPath))
  {
    hide MostSpecificFirst, FirstMatch, IsUnlimited, NoMount, OfLongestMount, CollapseSlashes, Lower, IsPaidChat;
    var path := CollapseSlashes(Lower(rawPath));
    TableIsMostSpecificFirst();
    FirstMatchBucket(PREFIX_BUCKETS, path, verb);
    if FirstMatch(PREFIX_BUCKETS, path).Some? { MatchedBucket(path); }
  }

  lemma TableBuckets(row: Row)
    requires row in PREFIX_BUCKETS
    ensures row.bucket != Global && row.bucket != Exempt && row.bucket != PaidChat
  {}

  lemma MatchedBucket(path: string)
    requires FirstMatch(PREFIX_BUCKETS, path).Some?
    ensures FirstMatch(PREFIX_BUCKETS, path).value != Global && FirstMatch(PREFIX_BUCKETS, path).value != Exempt
  {
    hide FirstMatch;
    BucketInTable(PREFIX_BUCKETS, path);
    var row :| row in PREFIX_BUCKETS && row.bucket == FirstMatch(PREFIX_BUCKETS, path).value;
    TableBuckets(row);
  }

  lemma {:induction false} BucketInTable(table: seq<Row>, path: string)
    requires FirstMatch(table, path).Some?
    ensures exists row :: row in table && row.bucket == FirstMatch(table, path).value
  {
    if RowMatches(table[0], path) {
      assert table[0] in table;
    } else {
      BucketInTable(table[1..], path);
      var row :| row in table[1..] && row.bucket == FirstMatch(table, path).value;
      assert row in table;
    }
  }

  // ---- What the classifier looks at ---------------------------------------------------------------

  /** The path in lower case: the letters A to Z are replaced by a to z. */
  ghost predicate InLowerCase(raw: string, path: string) {
    && |path| == |raw|
    && forall i :: 0 <= i < |raw| ==>
         path[i] == if 'A' <= raw[i] <= 'Z' then "abcdefghijklmnopqrstuvwxyz"[raw[i] as int - 65] else raw[i]
  }

  lemma LowerIs(raw: string)
    ensures InLowerCase(raw, Lower(raw))
  {
    forall c: char | 'A' <= c <= 'Z'
      ensures LowerChar(c) == "abcdefghijklmnopqrstuvwxyz"[c as int - 65]
    {
      LetterIs(c as int - 65);
    }
  }

  lemma LetterIs(i: nat)
    requires i < 26
    ensures "abcdefghijklmnopqrstuvwxyz"[i] == (i + 97) as char
  {
    if i < 13 { FirstLetterIs(i); } else { SecondLetterIs(i); }
  }

  lemma FirstLetterIs(i: nat)
    requires i < 13
    ensures "abcdefghijklmnopqrstuvwxyz"[i] == (i + 97) as char
  {}

  lemma SecondLetterIs(i: nat)
    requires 13 <= i < 26
    ensures "abcdefghijklmnopqrstuvwxyz"[i] == (i + 97) as char
  {}

  /** The characters but the slashes that follow a slash. */
  ghost function WithoutRepeats(s: string): string {
    if s == "" then ""
    else
      var n := |s| - 1;
      WithoutRepeats(s[..n]) + if n > 0 && s[n - 1] == '/' && s[n] == '/' then "" else [s[n]]
  }

  lemma {:induction false} OneMoreCharacter(s: string, c: char)
    ensures CollapseSlashes(s + [c]) ==
      if s != "" && s[|s| - 1] == '/' && c == '/' then CollapseSlashes(s) else CollapseSlashes(s) + [c]
    decreases |s|
  {
    if s == "" {
      assert s + [c] == [c];
    } else {
      assert (s + [c])[1..] == s[1..] + [c];
      OneMoreCharacter(s[1..], c);
      if |s| == 1 { assert s[1..] == "" && CollapseSlashes(s) == s == [s[0]]; }
    }
  }

  lemma {:induction false} CollapseIs(s: string)
    ensures CollapseSlashes(s) == WithoutRepeats(s)
  {
    if s != "" {
      var n := |s| - 1;
      assert s == s[..n] + [s[n]];
      CollapseIs(s[..n]);
      OneMoreCharacter(s[..n], s[n]);
    }
  }

  /** A request counts as paid chat exactly when it is a POST to one of the two routes, with or without a slash at
      the end, whatever the case of its letters and however often its slashes are repeated. */
  lemma PaidChatIff(verb: string, rawPath: string, lower: string)
    requires InLowerCase(rawPath, lower)
    ensures CollapseSlashes(Lower(rawPath)) == WithoutRepeats(lower)
    ensures BucketFor(verb, rawPath) == PaidChat <==>
      && verb == "POST"
      && WithoutRepeats(lower) in ["/api/chat", "/api/chat/", "/api/agent/chat", "/api/agent/chat/"]
  {
    LowerIs(rawPath);
    assert lower == Lower(rawPath);
    CollapseIs(lower);
    var path := CollapseSlashes(lower);
    hide Lower, CollapseSlashes, WithoutRepeats, InLowerCase, FirstMatch, RowBucket, IsUnlimited, IsPaidChat;
    ChatIff(verb, path);
    HealthIsNoChat(lower);
    if FirstMatch(PREFIX_BUCKETS, path).Some? { BucketOfRow(path, verb); }
  }

  lemma ChatIff(verb: string, path: string)
    ensures IsPaidChat(verb, path) <==>
      verb == "POST" && path in ["/api/chat", "/api/chat/", "/api/agent/chat", "/api/agent/chat/"]
  {
    hide WithoutTrailingSlash;
    ChatPathIff(path, "/api/chat");
    ChatPathIff(path, "/api/agent/chat");
    assert "/api/chat" + "/" == "/api/chat/" && "/api/agent/chat" + "/" == "/api/agent/chat/";
  }

  lemma ChatPathIff(path: string, route: string)
    requires |route| > 1 && route[|route| - 1] != '/'
    ensures WithoutTrailingSlash(path) == route <==> path == route || path == route + "/"
  {}

  lemma HealthIsNoChat(lower: string)
    ensures IsUnlimited(lower) ==>
      WithoutRepeats(lower) !in ["/api/chat", "/api/chat/", "/api/agent/chat", "/api/agent/chat/"]
  {
    if lower == "/health" || lower == "/health/" {
      FirstStays(lower);
      assert lower[1] == 'h';
    }
  }

  lemma {:induction false} FirstStays(s: string)
    requires |s| >= 2 && s[1] != '/'
    ensures |WithoutRepeats(s)| >= 2 && WithoutRepeats(s)[1] == s[1]
    decreases |s|
  {
    if |s| > 2 {
      FirstStays(s[..|s| - 1]);
    } else {
      assert s[..1] == [s[0]] && s[..1][..0] == "";
      assert WithoutRepeats(s[..1]) == [s[0]];
    }
  }

  lemma BucketOfRow(path: string, verb: string)
    requires FirstMatch(PREFIX_BUCKETS, path).Some?
    ensures RowBucket(FirstMatch(PREFIX_BUCKETS, path).value, verb) != PaidChat
  {
    hide FirstMatch;
    BucketInTable(PREFIX_BUCKETS, path);
    var row :| row in PREFIX_BUCKETS && row.bucket == FirstMatch(PREFIX_BUCKETS, path).value;
    TableBuckets(row);
  }

  // ---- Spellings of one path ----------------------------------------------------------------------

  /** q is p with the case of some letters changed, or with one slash of p doubled. */
  ghost predicate Respelled(p: string, q: string) {
    || Lower(p) == Lower(q)
    || exists i :: 0 <= i < |p| && p[i] == '/' && q == p[..i] + "/" + p[i..]
  }

  lemma {:induction false} DoubledSlash(p: string, i: nat)
    requires i < |p| && p[i] == '/'
    ensures CollapseSlashes(p[..i] + "/" + p[i..]) == CollapseSlashes(p)
    decreases i
  {
    var q := p[..i] + "/" + p[i..];
    if i == 0 {
      assert q[1..] == p;
    } else {
      assert q[0] == p[0] && q[1..] == p[1..][..i - 1] + "/" + p[1..][i - 1..];
      DoubledSlash(p[1..], i - 1);
      assert q[1] == p[1];
    }
  }

  lemma RespelledCollapses(p: string, q: string)
    requires Respelled(p, q)
    ensures CollapseSlashes(Lower(p)) == CollapseSlashes(Lower(q))
  {
    if Lower(p) != Lower(q) {
      var i :| 0 <= i < |p| && p[i] == '/' && q == p[..i] + "/" + p[i..];
      assert Lower(q) == Lower(p)[..i] + "/" + Lower(p)[i..];
      DoubledSlash(Lower(p), i);
    }
  }

  /** A chain of respellings, each undoing or making one change. */
  ghost predicate Spellings(chain: seq<string>) {
    chain != [] && forall i ::
      0 < i < |chain| ==> Respelled(chain[i - 1], chain[i]) || Respelled(chain[i], chain[i - 1])
  }

  lemma {:induction false} SpellingsCollapse(chain: seq<string>)
    requires Spellings(chain)
    ensures CollapseSlashes(Lower(chain[0])) == CollapseSlashes(Lower(chain[|chain| - 1]))
    decreases |chain|
  {
    hide CollapseSlashes, Respelled, Lower;
    var n := |chain| - 1;
    if n > 0 {
      SpellingsCollapse(chain[..n]);
      if Respelled(chain[n - 1], chain[n]) { RespelledCollapses(chain[n - 1], chain[n]); }
      else { RespelledCollapses(chain[n], chain[n - 1]); }
    }
  }

  /** Changing case and adding or removing slashes inside runs never changes the bucket, except that only
      the exact spelling of /health is exempt. */
  lemma SpellingDoesNotMatter(chain: seq<string>, verb: string)
    requires Spellings(chain)
    ensures var p, q := chain[0], chain[|chain| - 1];
            (IsUnlimited(Lower(p)) <==> IsUnlimited(Lower(q))) ==> BucketFor(verb, p) == BucketFor(verb, q)
    ensures BucketFor(verb, chain[0]) == Exempt <==> Lower(chain[0]) in ["/health", "/health/"]
  {
    hide CollapseSlashes, Lower, FirstMatch, IsPaidChat;
    SpellingsCollapse(chain);
    var path := CollapseSlashes(Lower(chain[0]));
    if FirstMatch(PREFIX_BUCKETS, path).Some? { MatchedBucket(path); }
  }
}
