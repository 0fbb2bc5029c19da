/**
 * The decision logic of product_codes/fetch.py: the product code of a URL,
 * whether a URL still has to be fetched, given what the file system holds and
 * the current time, and the queue fill_queue builds from the URL file.
 */
module Fetch {
  import opened Text

  const BASE_PATH: string := "items"
  const FETCHED_PATH: string := BASE_PATH + "/fetched"
  const FAILED_PATH: string := BASE_PATH + "/failed"

  /** 60 * 60 * 24 seconds. */
  const ONE_DAY: int := 60 * 60 * 24

  /** get_code: the text after the last "/", the whole url when there is none. */
  function GetCode(url: string): (code: string)
    ensures forall i :: 0 <= i < |code| ==> code[i] != '/'
    ensures |code| <= |url| && code == url[|url| - |code|..]
    ensures |code| == |url| || url[|url| - |code| - 1] == '/'
  {
    var parts := Split(url, '/');
    SplitLast(url, '/');
    SplitPartsLackSeparator(url, '/');
    parts[|parts| - 1]
  }

  /** The file system as check sees it: the modification time, in whole seconds, of every path that exists. */
  datatype FileSystem = FileSystem(mtimes: map<string, int>)

  function FetchedFile(code: string): string {
    FETCHED_PATH + "/" + code + ".html"
  }

  function FailedMarker(code: string): string {
    FAILED_PATH + "/" + code
  }

  /** The lambda recent_mtime: despite its name, true when the path was modified MORE than a day before now. */
  function RecentMtime(fs: FileSystem, path: string, now: int): bool
    requires path in fs.mtimes
  {
    now - fs.mtimes[path] > ONE_DAY
  }

  /**
   * check: a URL is skipped when its page was fetched, or when it failed and
   * the failure marker is not older than a day; otherwise it is (re)fetched.
   */
  function Check(url: string, fs: FileSystem, now: int): bool {
    var code := GetCode(url);
    var failedPath := FailedMarker(code);
    if FetchedFile(code) in fs.mtimes then false
    else if failedPath in fs.mtimes && !RecentMtime(fs, failedPath, now) then false
    else true
  }

  // ---------------------------------------------------------------------------
  // get_code

  /** get_code inverts putting a code after a "/": whatever precedes the last "/" is ignored. */
  lemma GetCodeAfterSlash(prefix: string, code: string)
    requires forall i :: 0 <= i < |code| ==> code[i] != '/'
    ensures GetCode(prefix + "/" + code) == code
  {
    var url := prefix + "/" + code;
    var r := GetCode(url);
    assert url[|prefix|] == '/';
    assert forall i :: 0 <= i < |code| ==> url[|prefix| + 1 + i] == code[i];
    assert |r| == |code|;
    assert r == url[|url| - |r|..] == code;
  }

  /** A url without "/" is its own code. */
  lemma GetCodeWithoutSlash(url: string)
    requires forall i :: 0 <= i < |url| ==> url[i] != '/'
    ensures GetCode(url) == url
  {
    var r := GetCode(url);
  }

  /** A url ending in "/" has the empty code. */
  lemma GetCodeOfTrailingSlash(url: string)
    requires url != [] && url[|url| - 1] == '/'
    ensures GetCode(url) == ""
  {
  }

  // ---------------------------------------------------------------------------
  // check

  /** A fetched page wins: no failure marker, however old, brings the URL back. */
  lemma FetchedIsSkipped(url: string, fs: FileSystem, now: int)
    requires FetchedFile(GetCode(url)) in fs.mtimes
    ensures !Check(url, fs, now)
  {
  }

  /** A failure marker at most a day old keeps the URL out. */
  lemma FreshFailureIsSkipped(url: string, fs: FileSystem, now: int)
    requires FailedMarker(GetCode(url)) in fs.mtimes
    requires now - fs.mtimes[FailedMarker(GetCode(url))] <= ONE_DAY
    ensures !Check(url, fs, now)
  {
  }

  /** check is true exactly when nothing was fetched and there is no marker or one strictly older than a day. */
  lemma CheckIff(url: string, fs: FileSystem, now: int)
    ensures var code := GetCode(url);
      Check(url, fs, now) <==>
        FetchedFile(code) !in fs.mtimes &&
        (FailedMarker(code) !in fs.mtimes || now - fs.mtimes[FailedMarker(code)] > 86400)
  {
  }

  /** Waiting never turns a fetch into a skip: once check accepts a URL, it accepts it at every later time. */
  lemma CheckMonotoneInTime(url: string, fs: FileSystem, now: int, later: int)
    requires now <= later
    requires Check(url, fs, now)
    ensures Check(url, fs, later)
  {
  }

  /** check looks at the URL only through its code. */
  lemma CheckSeesOnlyTheCode(a: string, b: string, fs: FileSystem, now: int)
    requires GetCode(a) == GetCode(b)
    ensures Check(a, fs, now) == Check(b, fs, now)
  {
  }

  // ---------------------------------------------------------------------------
  // fill_queue

  /** Every line stripped, in file order. */
  function StripAll(lines: seq<string>): (r: seq<string>)
    ensures |r| == |lines| && forall i :: 0 <= i < |lines| ==> r[i] == Strip(lines[i])
  {
    seq(|lines|, i requires 0 <= i < |lines| => Strip(lines[i]))
  }

  /** Stripping works line by line: stripping two pieces is stripping each. */
  lemma StripAllAppend(a: seq<string>, b: seq<string>)
    ensures StripAll(a + b) == StripAll(a) + StripAll(b)
  {
    var l, r := StripAll(a + b), StripAll(a) + StripAll(b);
    assert |l| == |r|;
    forall i | 0 <= i < |l|
      ensures l[i] == r[i]
    {
      if i < |a| {
        assert (a + b)[i] == a[i];
      } else {
        assert (a + b)[i] == b[i - |a|];
      }
    }
  }

  /** The urls `keep` accepts, in order; `keep` also sees the position of each url, counted from `from`. */
  function Filter(urls: seq<string>, keep: (nat, string) -> bool, from: nat): seq<string>
    decreases |urls|
  {
    if urls == [] then []
    else (if keep(from, urls[0]) then [urls[0]] else []) + Filter(urls[1..], keep, from + 1)
  }

  /**
   * The test fill_queue applies to the line at position i: check, on a file
   * system that the loop leaves alone, at the time clock(i) that time() reads
   * during that call of check.
   */
  function Keep(fs: FileSystem, clock: nat -> int): (nat, string) -> bool {
    (i: nat, url: string) => Check(url, fs, clock(i))
  }

  /**
   * The queue fill_queue builds from the lines of the URL file, the first of
   * them at position `from`: the stripped lines check accepts, in file order.
   */
  function Accepted(lines: seq<string>, fs: FileSystem, clock: nat -> int, from: nat): seq<string> {
    Filter(StripAll(lines), Keep(fs, clock), from)
  }

  /** Filtering keeps order: filtering two pieces is filtering the first, then the second from where the first ends. */
  lemma {:induction false} FilterAppend(a: seq<string>, b: seq<string>, keep: (nat, string) -> bool, from: nat)
    ensures Filter(a + b, keep, from) == Filter(a, keep, from) + Filter(b, keep, from + |a|)
    decreases |a|
  {
    if a == [] {
      assert a + b == b;
    } else {
      var head := if keep(from, a[0]) then [a[0]] else [];
      var rest := a[1..];
      assert (a + b)[0] == a[0] && (a + b)[1..] == rest + b;
      assert Filter(a + b, keep, from) == head + Filter(rest + b, keep, from + 1);
      assert Filter(a, keep, from) == head + Filter(rest, keep, from + 1);
      FilterAppend(rest, b, keep, from + 1);
      assert from + 1 + |rest| == from + |a|;
    }
  }

  /** Every url that passes the filter was accepted at its own position. */
  lemma {:induction false} FilterSound(urls: seq<string>, keep: (nat, string) -> bool, from: nat, url: string) returns (i: nat)
    requires url in Filter(urls, keep, from)
    ensures i < |urls| && urls[i] == url && keep(from + i, url)
    decreases |urls|
  {
    var head := if keep(from, urls[0]) then [urls[0]] else [];
    assert Filter(urls, keep, from) == head + Filter(urls[1..], keep, from + 1);
    if url in head {
      i := 0;
    } else {
      var j := FilterSound(urls[1..], keep, from + 1, url);
      i := j + 1;
    }
  }

  /** Every url accepted at its own position passes the filter. */
  lemma {:induction false} FilterComplete(urls: seq<string>, keep: (nat, string) -> bool, from: nat, i: nat)
    requires i < |urls| && keep(from + i, urls[i])
    ensures urls[i] in Filter(urls, keep, from)
    decreases i
  {
    var head := if keep(from, urls[0]) then [urls[0]] else [];
    assert Filter(urls, keep, from) == head + Filter(urls[1..], keep, from + 1);
    if i > 0 {
      assert urls[1..][i - 1] == urls[i];
      FilterComplete(urls[1..], keep, from + 1, i - 1);
    }
  }

  /** Exactly the urls accepted at their own position pass the filter. */
  lemma FilterMembers(urls: seq<string>, keep: (nat, string) -> bool, from: nat, url: string)
    ensures url in Filter(urls, keep, from) <==>
      exists i :: 0 <= i < |urls| && urls[i] == url && keep(from + i, url)
  {
    if url in Filter(urls, keep, from) {
      var i := FilterSound(urls, keep, from, url);
    }
    if exists i :: 0 <= i < |urls| && urls[i] == url && keep(from + i, url) {
      var i :| 0 <= i < |urls| && urls[i] == url && keep(from + i, url);
      FilterComplete(urls, keep, from, i);
    }
  }

  /** fill_queue keeps file order: the lines of a file in two pieces are queued piece after piece. */
  lemma AcceptedAppend(a: seq<string>, b: seq<string>, fs: FileSystem, clock: nat -> int, from: nat)
    ensures Accepted(a + b, fs, clock, from) == Accepted(a, fs, clock, from) + Accepted(b, fs, clock, from + |a|)
  {
    StripAllAppend(a, b);
    FilterAppend(StripAll(a), StripAll(b), Keep(fs, clock), from);
  }

  /** fill_queue queues a URL exactly when it is the stripped form of some line that check accepts when that line is read. */
  lemma AcceptedMembers(lines: seq<string>, fs: FileSystem, clock: nat -> int, from: nat, url: string)
    ensures url in Accepted(lines, fs, clock, from) <==>
      exists i :: 0 <= i < |lines| && Strip(lines[i]) == url && Check(url, fs, clock(from + i))
  {
    var stripped := StripAll(lines);
    FilterMembers(stripped, Keep(fs, clock), from, url);
    if exists i :: 0 <= i < |lines| && Strip(lines[i]) == url && Check(url, fs, clock(from + i)) {
      var i :| 0 <= i < |lines| && Strip(lines[i]) == url && Check(url, fs, clock(from + i));
      assert stripped[i] == url && Keep(fs, clock)(from + i, url);
    }
  }

  /** A url that check accepts at one line stays accepted at any later line: the clock only moves forward. */
  lemma AcceptedLater(lines: seq<string>, fs: FileSystem, clock: nat -> int, i: nat, j: nat)
    requires i <= j < |lines| && Strip(lines[i]) == Strip(lines[j])
    requires clock(i) <= clock(j)
    requires Check(Strip(lines[i]), fs, clock(i))
    ensures Check(Strip(lines[j]), fs, clock(j))
  {
    CheckMonotoneInTime(Strip(lines[i]), fs, clock(i), clock(j));
  }

  /** The Fetcher: the lines of the URL file not yet read, and the queue of URLs to fetch. */
  class Fetcher {
    var unread: seq<string>
    var fetchQueue: seq<string>

    /** Fetcher(urls_file): the file opened with all its lines unread, and an empty queue. */
    constructor (lines: seq<string>)
      ensures unread == lines && fetchQueue == []
    {
      unread := lines;
      fetchQueue := [];
    }

    /**
     * fill_queue: read every remaining line, strip it, and queue it when check
     * accepts it; clock(i) is the time check reads for the i-th line.
     */
    method FillQueue(fs: FileSystem, clock: nat -> int)
      modifies this
      ensures unread == []
      ensures fetchQueue == old(fetchQueue) + Accepted(old(unread), fs, clock, 0)
    {
      var lines := unread;
      unread := [];
      ghost var stripped := StripAll(lines);
      ghost var keep := Keep(fs, clock);
      for i := 0 to |lines|
        invariant unread == []
        invariant fetchQueue == old(fetchQueue) + Filter(stripped[..i], keep, 0)
      {
        var line := Strip(lines[i]);
        assert stripped[..i + 1] == stripped[..i] + [line];
        FilterAppend(stripped[..i], [line], keep, 0);
        assert Filter([line], keep, i) == if keep(i, line) then [line] else [];
        if Check(line, fs, clock(i)) {
          fetchQueue := fetchQueue + [line];
        }
      }
      assert stripped[..|lines|] == stripped;
    }
  }
}
