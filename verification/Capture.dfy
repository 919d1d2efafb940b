/** Bounded capture of a child's output, and the deadline of an endpoint probe. */
module Capture {
  import opened Wrappers

  /** What one read gives: some bytes (as characters), or the end when there are none, or an error. */
  datatype Read = Data(bytes: string) | Failed(error: string)

  const BUFFER: nat := 8192
  const MARKER: string := "\n[output truncated]\n"

  /** Everything up to the end of the stream, or the error that came first. */
  function Input(stream: seq<Read>): Result<string, string> {
    if stream == [] then Ok("")
    else if stream[0].Failed? then Err(stream[0].error)
    else if stream[0].bytes == "" then Ok("")
    else
      var rest := Input(stream[1..]);
      if rest.Err? then rest else Ok(stream[0].bytes + rest.value)
  }

  /** The whole input if it fits; otherwise a prefix and the marker, or the marker cut to the limit. */
  function Bounded(input: string, limit: nat): string {
    if |input| <= limit then input
    else if |MARKER| <= limit then input[..limit - |MARKER|] + MARKER
    else MARKER[..limit]
  }

  function Min(a: nat, b: nat): nat {
    if a < b then a else b
  }

  function SaturatingSub(a: nat, b: nat): nat {
    if a < b then 0 else a - b
  }

  /** drain_bounded: keeps at most `limit` bytes while it reads on to the end. */
  method DrainBounded(stream: seq<Read>, limit: nat) returns (r: Result<string, string>)
    requires forall i :: 0 <= i < |stream| && stream[i].Data? ==> |stream[i].bytes| <= BUFFER
    ensures r == match Input(stream) case Ok(input) => Ok(Bounded(input, limit)) case Err(e) => Err(e)
  {
    var retained := "";
    var truncated := false;
    ghost var seen := "";
    var i := 0;
    ghost var rest := match Input(stream) case Ok(s) => s case Err(_) => "";
    assert "" + rest == rest;
    while i < |stream| && !(stream[i].Data? && stream[i].bytes == "")
      invariant i <= |stream|
      invariant retained == seen[..Min(|seen|, limit)] && truncated == (|seen| > limit)
      invariant Input(stream) == match Input(stream[i..]) case Ok(rest) => Ok(seen + rest) case Err(e) => Err(e)
    {
      assert stream[i..][1..] == stream[i + 1..];
      if stream[i].Failed? {
        return Err(stream[i].error);
      }
      var bytes := stream[i].bytes;
      var remaining := SaturatingSub(limit, |retained|);
      var keep := Min(remaining, |bytes|);
      ghost var more := seen + bytes;
      assert retained + bytes[..keep] == more[..Min(|more|, limit)];
      assert Input(stream[i..]).Ok? ==>
        seen + (bytes + Input(stream[i + 1..]).value) == more + Input(stream[i + 1..]).value;
      retained := retained + bytes[..keep];
      truncated := truncated || keep < |bytes|;
      seen := more;
      i := i + 1;
    }
    assert Input(stream[i..]) == Ok("") && seen + "" == seen;
    if truncated {
      var contentLimit := SaturatingSub(limit, |MARKER|);
      retained := retained[..Min(|retained|, contentLimit)];
      var markerBytes := SaturatingSub(limit, |retained|);
      retained := retained + MARKER[..Min(markerBytes, |MARKER|)];
      CutInput(seen, limit);
    }
    r := Ok(retained);
  }

  lemma CutInput(input: string, limit: nat)
    requires |input| > limit
    ensures var kept := input[..Min(|input|, limit)];
      var content := kept[..Min(|kept|, SaturatingSub(limit, |MARKER|))];
      content + MARKER[..Min(SaturatingSub(limit, |content|), |MARKER|)] == Bounded(input, limit)
  {
    var kept := input[..limit];
    if |MARKER| <= limit {
      assert kept[..limit - |MARKER|] == input[..limit - |MARKER|];
      assert MARKER[..|MARKER|] == MARKER;
    } else {
      assert kept[..0] + MARKER[..limit] == MARKER[..limit];
    }
  }

  /** The result never exceeds the limit, and no longer prefix of the input would leave room for the marker. */
  lemma BoundedFits(input: string, limit: nat)
    ensures |Bounded(input, limit)| <= limit
    ensures |input| > limit >= 20 ==>
      Bounded(input, limit) == input[..limit - 20] + "\n[output truncated]\n"
      && forall n :: 0 <= n <= |input| && |input[..n] + MARKER| <= limit ==> n <= limit - 20
    ensures |input| > limit && limit < 20 ==> Bounded(input, limit) == "\n[output truncated]\n"[..limit]
    ensures |input| <= limit <==> Bounded(input, limit) == input
  {
  }

  /** Any way of cutting the same input into non-empty reads is captured alike. */
  lemma {:induction false} ChunkingDoesNotMatter(chunks: seq<string>)
    requires forall i :: 0 <= i < |chunks| ==> chunks[i] != ""
    ensures Input(AsReads(chunks)) == Ok(Joined(chunks))
  {
    if chunks != [] {
      ChunkingDoesNotMatter(chunks[1..]);
    }
  }

  function AsReads(chunks: seq<string>): seq<Read> {
    if chunks == [] then [] else [Data(chunks[0])] + AsReads(chunks[1..])
  }

  function Joined(chunks: seq<string>): string {
    if chunks == [] then "" else chunks[0] + Joined(chunks[1..])
  }

  // ---- The probe's deadline ----

  const MAX_U16: nat := 65535
  const MAX_U64: nat := 0xFFFF_FFFF_FFFF_FFFF

  function Clamp(n: nat, low: nat, high: nat): nat {
    if n < low then low else if n > high then high else n
  }

  function AtLeastOne(n: nat): (m: nat)
    ensures m > 0
  {
    if n < 1 then 1 else n
  }

  function ProbeDeadlineMs(profiles: nat, timeoutSeconds: nat, concurrency: nat): nat
    requires timeoutSeconds <= MAX_U16
  {
    var workers := AtLeastOne(concurrency);
    var rounds := (AtLeastOne(profiles) + workers - 1) / workers;
    var perRound := Min(timeoutSeconds + 1, MAX_U16) * 3000;
    Clamp(Min(Min(Min(rounds, MAX_U64) * perRound, MAX_U64) + 5000, MAX_U64), 5000, 900000)
  }

  lemma AtLeast(a: nat, q: nat, d: nat)
    requires d > 0 && a >= q * d
    ensures a / d >= q
  {
    var r := a / d;
    assert a == r * d + a % d && a % d < d;
    if r + 1 <= q {
      ProductGrows(r + 1, q, d);
    }
  }

  lemma RoundOf(i: nat, n: nat, workers: nat)
    requires i < n && workers > 0
    ensures i / workers + 1 <= (n + workers - 1) / workers
  {
    var q := i / workers;
    assert i == q * workers + i % workers;
    assert (q + 1) * workers == q * workers + workers;
    AtLeast(n + workers - 1, q + 1, workers);
  }

  /** Unless it is cut to a quarter of an hour, the deadline leaves five seconds after the last worker's round. */
  lemma DeadlineCoversEveryRound(profiles: nat, timeoutSeconds: nat, concurrency: nat, i: nat)
    requires timeoutSeconds <= MAX_U16 && i < AtLeastOne(profiles)
    ensures var deadline := ProbeDeadlineMs(profiles, timeoutSeconds, concurrency);
      && 5000 <= deadline <= 900000
      && (deadline == 900000
          || (i / AtLeastOne(concurrency) + 1) * (Min(timeoutSeconds + 1, MAX_U16) * 3000) + 5000 <= deadline)
  {
    var perRound := Min(timeoutSeconds + 1, MAX_U16) * 3000;
    var workers := AtLeastOne(concurrency);
    var rounds := (AtLeastOne(profiles) + workers - 1) / workers;
    RoundOf(i, AtLeastOne(profiles), workers);
    ProductGrows(i / workers + 1, rounds, perRound);
    ProductGrows(1, perRound, MAX_U64);
    if rounds > MAX_U64 {
      assert MAX_U64 * perRound >= MAX_U64;
    }
  }

  lemma Ceiling(n: nat, workers: nat, rounds: nat)
    requires n > 0 && workers > 0 && rounds > 0 && (rounds - 1) * workers < n <= rounds * workers
    ensures (n + workers - 1) / workers == rounds
  {
    var q := (n + workers - 1) / workers;
    AtLeast(n + workers - 1, rounds, workers);
    if q > rounds {
      ProductGrows(rounds + 1, q, workers);
    }
  }

  /**
   * The deadline exactly: three seconds for every second of the timeout and one more, for each of the
   * rounds that the workers need for all profiles, and five seconds; but no more than a quarter of an
   * hour. No profile and no worker count as one, and the longest timeout as one second less.
   */
  lemma DeadlineExactly(profiles: nat, timeoutSeconds: nat, concurrency: nat, rounds: nat)
    requires timeoutSeconds <= 65535 && rounds > 0
    requires var n, workers := if profiles == 0 then 1 else profiles, if concurrency == 0 then 1 else concurrency;
      (rounds - 1) * workers < n <= rounds * workers
    ensures ProbeDeadlineMs(profiles, timeoutSeconds, concurrency) ==
      Min(rounds * (Min(timeoutSeconds + 1, 65535) * 3000) + 5000, 900000)
  {
    Ceiling(AtLeastOne(profiles), AtLeastOne(concurrency), rounds);
    var perRound := Min(timeoutSeconds + 1, MAX_U16) * 3000;
    if rounds > MAX_U64 {
      ProductGrows(1, perRound, MAX_U64);
      ProductGrows(MAX_U64, rounds, perRound);
    }
  }

  lemma ProductGrows(a: nat, b: nat, f: nat)
    requires a <= b
    ensures a * f <= b * f
  {
  }
}
