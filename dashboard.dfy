/** The dashboard's display rules: the relative age of an item in whole
    hours and days, the initials of a name, the activity badge style, and
    the three short lists it shows. */
module Dashboard {
  import opened Common
  import opened Seqs
  import opened Strings
  import Files
  import Discussions
  import Groups

  const HourMs := 1000 * 60 * 60
  const DayMs := 24 * HourMs

  /** `${n} ${unit}${n > 1 ? 's' : ''} ago`: the count and a space, then the
      unit, plural exactly when the count is above one. */
  function Ago(n: nat, unit: string): (r: string)
    ensures StartsWith(r, NatToString(n) + " ")
    ensures n > 1 ==> |r| >= |unit| + 5 && r[|r| - |unit| - 5..] == unit + "s ago"
    ensures n <= 1 ==> |r| >= |unit| + 4 && r[|r| - |unit| - 4..] == unit + " ago"
  {
    NatToString(n) + " " + unit + (if n > 1 then "s" else "") + " ago"
  }

  /** `formatTimeAgo` for an age of `diffMs` milliseconds (negative for a
      date in the future): whole hours are `Math.floor(diffMs / 3600000)`,
      which for this positive divisor is Dafny's division. */
  function FormatTimeAgo(diffMs: int): (r: string)
    ensures diffMs < HourMs ==> r == "Just now"
    ensures HourMs <= diffMs < DayMs ==> 1 <= diffMs / HourMs < 24 && r == Ago(diffMs / HourMs, "hour")
    ensures DayMs <= diffMs ==> 1 <= diffMs / DayMs && r == Ago(diffMs / DayMs, "day")
  {
    var hours := diffMs / HourMs;
    if hours < 1 then "Just now"
    else if hours < 24 then Ago(hours, "hour")
    else
      DaysFromHours(diffMs);
      Ago(hours / 24, "day")
  }

  /** Counting whole days through whole hours gives the whole days:
      `floor(floor(ms / 3600000) / 24) == floor(ms / 86400000)`. */
  lemma DaysFromHours(ms: int)
    ensures (ms / HourMs) / 24 == ms / DayMs
  {
    var h := ms / HourMs;
    var r1 := ms % HourMs;
    var d := h / 24;
    var r2 := h % 24;
    assert ms == HourMs * h + r1;
    assert h == 24 * d + r2;
    assert ms == DayMs * d + (HourMs * r2 + r1);
    assert 0 <= HourMs * r2 + r1 < DayMs;
    DivUnique(ms, DayMs, d, HourMs * r2 + r1);
  }

  /** Euclidean division is determined by a quotient and remainder in range. */
  lemma DivUnique(n: int, dv: int, q: int, r: int)
    requires dv > 0 && n == dv * q + r && 0 <= r < dv
    ensures n / dv == q
  {
    var k := q - n / dv;
    assert dv * k == n % dv - r;
    MulAwayFromZero(dv, k);
  }

  /** A non-zero multiple of a positive number is at least that far from 0. */
  lemma MulAwayFromZero(dv: int, k: int)
    requires dv > 0
    ensures k >= 1 ==> dv * k >= dv
    ensures k <= -1 ==> dv * k <= -dv
  {
  }

  /** The label never says "1 hours" or "1 days": the unit is singular
      exactly for a count of one, and every age of an hour or more has a
      count of at least one. */
  lemma SingularExactlyForOne(diffMs: int)
    requires HourMs <= diffMs
    ensures FormatTimeAgo(diffMs) != "Just now"
    ensures HourMs <= diffMs < 2 * HourMs ==> FormatTimeAgo(diffMs) == "1 hour ago"
    ensures DayMs <= diffMs < 2 * DayMs ==> FormatTimeAgo(diffMs) == "1 day ago"
  {
    var r := FormatTimeAgo(diffMs);
    var n := if diffMs < DayMs then diffMs / HourMs else diffMs / DayMs;
    var s := NatToString(n);
    assert r[..|s|] == s;
    assert IsDigit(r[0]);
    if HourMs <= diffMs < 2 * HourMs {
      DivUnique(diffMs, HourMs, 1, diffMs - HourMs);
    }
    if DayMs <= diffMs < 2 * DayMs {
      DivUnique(diffMs, DayMs, 1, diffMs - DayMs);
    }
  }

  /** `n[0]` of each word, where the empty word contributes nothing
      (`undefined` joins as ''). */
  function FirstChars(words: seq<string>): (r: string)
    ensures |r| <= |words|
  {
    if words == [] then ""
    else (if words[0] == "" then "" else [words[0][0]]) + FirstChars(words[1..])
  }

  /** `name.split(' ').map(n => n[0]).join('').toUpperCase().slice(0, 2)`. */
  function GetInitials(name: string): (r: string)
    ensures |r| <= 2
  {
    Take(Upper(FirstChars(Split(name, ' '))), 2)
  }

  /** A first and a last name give their two capitalised first letters. */
  lemma InitialsOfTwoNames(first: string, last: string)
    requires first != "" && last != "" && ' ' !in first && ' ' !in last
    ensures GetInitials(first + " " + last) == [UpperChar(first[0]), UpperChar(last[0])]
  {
    SplitConcat(first, last, ' ');
    SplitNoSep(first, ' ');
    SplitNoSep(last, ' ');
    assert first + " " + last == first + [' '] + last;
    assert Split(first + " " + last, ' ') == [first, last];
    assert FirstChars([first, last]) == [first[0]] + FirstChars([last]);
    assert FirstChars([last]) == [last[0]] + FirstChars([]);
  }

  function NonEmptyWord(): string -> bool {
    (w: string) => w != ""
  }

  /** Extra spaces between words add no initial. */
  lemma {:induction false} FirstCharsSkipEmpty(words: seq<string>)
    ensures FirstChars(words) == FirstChars(Filter(NonEmptyWord(), words))
  {
    if words != [] {
      FirstCharsSkipEmpty(words[1..]);
      if words[0] != "" {
        var rest := Filter(NonEmptyWord(), words[1..]);
        assert ([words[0]] + rest)[1..] == rest;
      }
    }
  }

  /** Words that are all non-empty give one first character each, in order. */
  lemma {:induction false} FirstCharsOfWords(words: seq<string>)
    requires forall i :: 0 <= i < |words| ==> words[i] != ""
    ensures |FirstChars(words)| == |words|
    ensures forall i :: 0 <= i < |words| ==> FirstChars(words)[i] == words[i][0]
  {
    if words != [] {
      FirstCharsOfWords(words[1..]);
      assert FirstChars(words) == [words[0][0]] + FirstChars(words[1..]);
    }
  }

  /** The initials of any name: the capitalised first characters of its first
      two non-empty space-separated words, or fewer when it has fewer words. */
  lemma InitialsOfAnyName(name: string)
    ensures var ws := Filter(NonEmptyWord(), Split(name, ' '));
            && |GetInitials(name)| == (if |ws| < 2 then |ws| else 2)
            && forall i :: 0 <= i < |GetInitials(name)| ==> GetInitials(name)[i] == UpperChar(ws[i][0])
  {
    var ws := Filter(NonEmptyWord(), Split(name, ' '));
    FirstCharsSkipEmpty(Split(name, ' '));
    FirstCharsOfWords(ws);
  }

  /** The style `getActivityBadge` gives an activity level. */
  function GetActivityBadge(activity: string): (r: string)
    ensures activity == "high" ==> r == "bg-success text-success-foreground"
    ensures activity == "medium" ==> r == "bg-warning text-warning-foreground"
    ensures activity != "high" && activity != "medium" ==> r == "bg-muted text-muted-foreground"
  {
    if activity == "high" then "bg-success text-success-foreground"
    else if activity == "medium" then "bg-warning text-warning-foreground"
    else "bg-muted text-muted-foreground"
  }

  /** `files.slice(0, 3)` and `discussions.slice(0, 3)`: the first three items,
      or all of them when there are fewer. */
  function Recent<T>(items: seq<T>): (r: seq<T>)
    ensures |r| == if |items| < 3 then |items| else 3
    ensures r <= items
  {
    Take(items, 3)
  }

  function IsMember(): Groups.GroupData -> bool {
    (g: Groups.GroupData) => g.isMember
  }

  /** `groups.filter(g => g.is_member).slice(0, 3)`. */
  function ActiveGroups(groups: seq<Groups.GroupData>): (r: seq<Groups.GroupData>)
    ensures |r| <= 3
    ensures forall i :: 0 <= i < |r| ==> r[i].isMember && r[i] in groups
  {
    Take(Filter(IsMember(), groups), 3)
  }

  /** The active groups are the first member groups in list order: they are
      a subsequence of the list, and fewer than three only when there are no
      more member groups. */
  lemma ActiveGroupsAreFirstMembers(groups: seq<Groups.GroupData>)
    ensures IsSubsequence(ActiveGroups(groups), groups)
    ensures ActiveGroups(groups) <= Filter(IsMember(), groups)
    ensures |ActiveGroups(groups)| < 3 ==> ActiveGroups(groups) == Filter(IsMember(), groups)
  {
    FilterIsSubsequence(IsMember(), groups);
    PrefixOfSubsequence(ActiveGroups(groups), Filter(IsMember(), groups), groups);
  }
}
