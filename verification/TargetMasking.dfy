/** Masking of target hosts in the request log.  A string stands for its bytes. */
module TargetMasking {
  import opened Basics

  datatype Split = Split(host: string, port: Option<string>)

  predicate AllDigits(s: string) {
    forall i :: 0 <= i < |s| ==> '0' <= s[i] <= '9'
  }

  function Value(digits: string): nat
    requires AllDigits(digits)
  {
    if digits == "" then 0 else 10 * Value(digits[..|digits| - 1]) + (digits[|digits| - 1] - '0') as nat
  }

  /** strconv.Atoi succeeds: an optional sign, digits, and a 64-bit value. */
  predicate IsInteger(s: string) {
    var digits := if s != "" && s[0] in {'+', '-'} then s[1..] else s;
    && digits != ""
    && AllDigits(digits)
    && Value(digits) <= if s[0] == '-' then 0x8000_0000_0000_0000 else 0x7fff_ffff_ffff_ffff
  }

  /** strings.LastIndex of a one-byte separator. */
  function LastIndex(s: string, c: char): (i: int)
    ensures -1 <= i < |s|
    ensures 0 <= i ==> s[i] == c
    ensures forall k :: i < k < |s| ==> s[k] != c
  {
    if s == "" then -1
    else if s[|s| - 1] == c then |s| - 1
    else LastIndex(s[..|s| - 1], c)
  }

  /** strings.LastIndex of "]:". */
  function LastBracket(s: string): (i: int)
    ensures -1 <= i < |s| - 1 || i == -1
    ensures 0 <= i ==> s[i] == ']' && s[i + 1] == ':'
    ensures forall k :: i < k < |s| - 1 ==> !(s[k] == ']' && s[k + 1] == ':')
  {
    if |s| < 2 then -1
    else if s[|s| - 2] == ']' && s[|s| - 1] == ':' then |s| - 2
    else LastBracket(s[..|s| - 1])
  }

  predicate HasPort(s: string) {
    var i := LastIndex(s, ':');
    0 < i && IsInteger(s[i + 1..])
  }

  function SplitTarget(target: string): Split {
    if target != "" && target[0] == '[' then
      var i := LastBracket(target);
      if 0 < i then Split(target[..i + 1], Some(target[i + 2..])) else Split(target, None)
    else
      var i := LastIndex(target, ':');
      if HasPort(target) then Split(target[..i], Some(target[i + 1..])) else Split(target, None)
  }

  function Stars(n: nat): (s: string)
    ensures |s| == n && forall i :: 0 <= i < n ==> s[i] == '*'
  {
    seq(n, _ => '*')
  }

  function MaskLabel(l: string): (m: string)
    ensures |m| == |l|
    ensures forall i :: 0 <= i < |l| ==> m[i] == l[i] || m[i] == '*'
  {
    if |l| <= 2 then Stars(|l|)
    else if |l| == 3 then "*" + l[1..]
    else l[..3] + Stars(|l| - 3)
  }

  /** strings.Split on dots: never empty. */
  function Labels(host: string): (ls: seq<string>)
    ensures ls != []
    decreases |host|
  {
    var i := FirstDot(host);
    if i == |host| then [host] else [host[..i]] + Labels(host[i + 1..])
  }

  function FirstDot(s: string): (i: nat)
    ensures i <= |s| && (forall k :: 0 <= k < i ==> s[k] != '.') && (i < |s| ==> s[i] == '.')
  {
    if s == "" || s[0] == '.' then 0 else 1 + FirstDot(s[1..])
  }

  function Join(ls: seq<string>): string
    requires ls != []
  {
    if |ls| == 1 then ls[0] else ls[0] + "." + Join(ls[1..])
  }

  function MaskAll(ls: seq<string>): (ms: seq<string>)
    ensures |ms| == |ls| && forall i :: 0 <= i < |ls| ==> ms[i] == MaskLabel(ls[i])
  {
    seq(|ls|, i requires 0 <= i < |ls| => MaskLabel(ls[i]))
  }

  function MaskHost(host: string): string {
    Join(MaskAll(Labels(host)))
  }

  function WithPort(host: string, port: Option<string>): string {
    match port
    case None => host
    case Some(p) => host + ":" + p
  }

  function Masked(target: string): string {
    if target == "" then ""
    else
      var s := SplitTarget(target);
      if s.host != "" && s.host[0] == '[' then WithPort("[****]", s.port) else WithPort(MaskHost(s.host), s.port)
  }

  /** The loop over the labels, which rewrites the slice in place. */
  method MaskInPlace(labels: array<string>)
    modifies labels
    ensures labels[..] == MaskAll(old(labels[..]))
  {
    var i := 0;
    while i < labels.Length
      invariant 0 <= i <= labels.Length
      invariant forall k :: 0 <= k < i ==> labels[k] == MaskLabel(old(labels[k]))
      invariant forall k :: i <= k < labels.Length ==> labels[k] == old(labels[k])
    {
      var l := labels[i];
      var n := |l|;
      if n <= 2 {
        labels[i] := Stars(n);
      } else if n == 3 {
        labels[i] := "*" + l[n - 2..];
      } else {
        labels[i] := l[..3] + Stars(n - 3);
      }
      i := i + 1;
    }
  }

  method AnonymizeTarget(target: string) returns (out: string)
    ensures out == Masked(target)
  {
    if target == "" {
      return "";
    }
    var s := SplitTarget(target);
    if s.host != "" && s.host[0] == '[' {
      out := "[****]";
    } else {
      var ls := Labels(s.host);
      var labels := new string[|ls|](i requires 0 <= i < |ls| => ls[i]);
      assert labels[..] == ls;
      MaskInPlace(labels);
      out := Join(labels[..]);
    }
    if s.port.Some? {
      out := out + ":" + s.port.value;
    }
  }

  // Labels and dots.

  predicate DotFree(l: string) {
    forall k :: 0 <= k < |l| ==> l[k] != '.'
  }

  predicate AllDotFree(ls: seq<string>) {
    forall i :: 0 <= i < |ls| ==> DotFree(ls[i])
  }

  lemma JoinCons(l: string, ls: seq<string>)
    requires ls != []
    ensures Join([l] + ls) == l + "." + Join(ls)
  {
    assert ([l] + ls)[1..] == ls;
  }

  lemma {:induction false} LabelsJoin(host: string)
    ensures AllDotFree(Labels(host))
    ensures Join(Labels(host)) == host
    decreases |host|
  {
    var i := FirstDot(host);
    if i == |host| {
      assert host[..i] == host;
    } else {
      LabelsJoin(host[i + 1..]);
      JoinCons(host[..i], Labels(host[i + 1..]));
      assert host == host[..i] + "." + host[i + 1..];
    }
  }

  lemma {:induction false} JoinLabels(ls: seq<string>)
    requires ls != [] && AllDotFree(ls)
    ensures Labels(Join(ls)) == ls
  {
    if |ls| == 1 {
      assert ls == [ls[0]] && Join(ls) == ls[0];
      LabelsOfOne(ls[0]);
    } else {
      JoinLabels(ls[1..]);
      hide Labels, DotFree;
      LabelsOfCons(ls[0], Join(ls[1..]));
      assert ls == [ls[0]] + ls[1..];
    }
  }

  lemma LabelsOfOne(l: string)
    requires DotFree(l)
    ensures Labels(l) == [l]
  {
    assert l[..|l|] == l;
  }

  lemma LabelsOfCons(l: string, rest: string)
    requires DotFree(l)
    ensures Labels(l + "." + rest) == [l] + Labels(rest)
  {
    var s := l + "." + rest;
    assert s[|l|] == '.' && forall k :: 0 <= k < |l| ==> s[k] == l[k];
    assert s[..|l|] == l && s[|l| + 1..] == rest;
  }

  lemma MaskLabelTwice(l: string)
    ensures MaskLabel(MaskLabel(l)) == MaskLabel(l)
  {
    var m := MaskLabel(l);
    if 3 < |l| {
      assert m[..3] == l[..3];
    }
  }

  lemma MaskHostTwice(host: string)
    ensures MaskHost(MaskHost(host)) == MaskHost(host)
  {
    var ms := MaskAll(Labels(host));
    LabelsJoin(host);
    forall i | 0 <= i < |ms| ensures MaskLabel(ms[i]) == ms[i] {
      MaskLabelTwice(Labels(host)[i]);
    }
    JoinLabels(ms);
    assert MaskAll(ms) == ms;
  }

  /** b is a with some bytes other than dots replaced by stars. */
  predicate StarredCopy(a: string, b: string) {
    && |a| == |b|
    && forall i :: 0 <= i < |a| ==> (b[i] == a[i] || b[i] == '*') && (a[i] == '.' <==> b[i] == '.')
  }

  lemma StarredPieces(a: string, b: string, c: string, d: string)
    requires StarredCopy(a, b) && StarredCopy(c, d)
    ensures StarredCopy(a + "." + c, b + "." + d)
  {
  }

  lemma {:induction false} JoinKeepsPositions(ls: seq<string>)
    requires ls != [] && AllDotFree(ls)
    ensures StarredCopy(Join(ls), Join(MaskAll(ls)))
  {
    assert StarredCopy(ls[0], MaskLabel(ls[0]));
    if |ls| > 1 {
      JoinKeepsPositions(ls[1..]);
      assert MaskAll(ls)[1..] == MaskAll(ls[1..]);
      StarredPieces(ls[0], MaskLabel(ls[0]), Join(ls[1..]), Join(MaskAll(ls[1..])));
    }
  }

  lemma MaskHostKeepsPositions(host: string)
    ensures StarredCopy(host, MaskHost(host))
  {
    LabelsJoin(host);
    JoinKeepsPositions(Labels(host));
  }

  // Masking neither creates nor destroys a port.

  lemma {:induction false} JoinEnds(ls: seq<string>)
    requires ls != []
    ensures var last, j := ls[|ls| - 1], Join(ls);
            && |last| <= |j| && j[|j| - |last|..] == last
            && (|last| < |j| ==> j[|j| - |last| - 1] == '.')
  {
    if |ls| > 1 {
      JoinEnds(ls[1..]);
      assert Join(ls)[|ls[0]| + 1..] == Join(ls[1..]);
    }
  }

  lemma IntegerBytes(s: string)
    requires IsInteger(s)
    ensures s != "" && forall k :: 0 <= k < |s| ==> s[k] !in {'*', '.', ':'}
  {
    if s[0] in {'+', '-'} {
      forall k | 0 <= k < |s| ensures s[k] !in {'*', '.', ':'} {
        assert k > 0 ==> s[k] == s[1..][k - 1];
      }
    }
  }

  /** The last label of a host and of the masked host end at the same place. */
  lemma MaskedEnd(host: string) returns (last: string)
    ensures |last| <= |host| == |MaskHost(host)|
    ensures host[|host| - |last|..] == last
    ensures MaskHost(host)[|host| - |last|..] == MaskLabel(last)
    ensures |last| < |host| ==> MaskHost(host)[|host| - |last| - 1] == '.'
  {
    var ls := Labels(host);
    last := ls[|ls| - 1];
    LabelsJoin(host);
    JoinEnds(ls);
    JoinEnds(MaskAll(ls));
    MaskHostKeepsPositions(host);
  }

  /** Masked bytes after the last colon can only be an integer when the last
      label has three bytes, the middle one being the colon itself. */
  lemma MaskedPortWasPort(host: string)
    requires HasPort(MaskHost(host))
    ensures HasPort(host)
  {
    hide MaskHost, IsInteger, LastIndex;
    var m, n := MaskHost(host), |host|;
    var i := LastIndex(m, ':');
    IntegerTail(m, i);
    var last := MaskedEnd(host);
    MaskLabelEnd(last);
    TailInLastLabel(m, i, last);
    assert host[n - 2..] == last[1..] == m[n - 2..];
    PortAtEnd(host, m);
  }

  /** A port of one byte depends on the last two bytes only. */
  lemma PortAtEnd(host: string, m: string)
    requires |m| == |host| >= 2 && HasPort(m) && LastIndex(m, ':') == |m| - 2
    requires host[|host| - 2..] == m[|m| - 2..]
    ensures HasPort(host)
  {
    var n := |host|;
    assert host[n - 2..][0] == host[n - 2] && m[n - 2..][0] == m[n - 2];
    assert host[n - 2..][1] == host[n - 1] && m[n - 2..][1] == m[n - 1];
    assert LastIndex(host, ':') == n - 2;
    assert host[n - 1..] == m[n - 1..];
  }

  lemma IntegerTail(m: string, i: int)
    requires 0 <= i < |m| && IsInteger(m[i + 1..])
    ensures i < |m| - 1 && forall j :: i < j < |m| ==> m[j] !in {'*', '.', ':'}
  {
    IntegerBytes(m[i + 1..]);
    forall j | i < j < |m| ensures m[j] !in {'*', '.', ':'} {
      assert m[j] == m[i + 1..][j - i - 1];
    }
  }

  lemma MaskLabelEnd(l: string)
    ensures l != "" && |l| != 3 ==> MaskLabel(l)[|l| - 1] == '*'
    ensures |l| == 3 ==> MaskLabel(l)[0] == '*' && MaskLabel(l)[1..] == l[1..]
  {
  }

  lemma TailInLastLabel(m: string, i: int, last: string)
    requires 0 < i < |m| - 1 && m[i] == ':' && forall j :: i < j < |m| ==> m[j] !in {'*', '.', ':'}
    requires |last| <= |m| && m[|m| - |last|..] == MaskLabel(last)
    requires last != "" && |last| != 3 ==> MaskLabel(last)[|last| - 1] == '*'
    requires |last| == 3 ==> MaskLabel(last)[0] == '*' && MaskLabel(last)[1..] == last[1..]
    requires |last| < |m| ==> m[|m| - |last| - 1] == '.'
    ensures |last| == 3 && i == |m| - 2 && m[|m| - 2..] == last[1..]
  {
    var n, k := |m|, |last|;
    assert k > 0 ==> m[n - 1] == MaskLabel(last)[k - 1];
    assert k == 3;
    assert m[n - 3] == MaskLabel(last)[0] == '*';
    assert m[n - 2..] == MaskLabel(last)[1..];
  }

  lemma SplitOfMaskedBracket(port: Option<string>)
    requires port.Some? ==> LastBracket(":" + port.value) == -1
    ensures SplitTarget(WithPort("[****]", port)) == Split("[****]", port)
  {
    var out := WithPort("[****]", port);
    if port.Some? {
      var p := port.value;
      assert forall k :: 6 <= k < |out| ==> out[k] == (":" + p)[k - 6];
      assert out[5] == ']' && out[6] == ':';
      assert LastBracket(out) == 5;
      assert out[..6] == "[****]" && out[7..] == p;
    } else {
      assert LastBracket(out) == -1;
    }
  }

  lemma BracketPort(target: string)
    requires target != "" && target[0] == '[' && SplitTarget(target).port.Some?
    ensures LastBracket(":" + SplitTarget(target).port.value) == -1
  {
    var i := LastBracket(target);
    var p := ":" + SplitTarget(target).port.value;
    assert forall k :: 0 <= k < |p| ==> p[k] == target[i + 1 + k];
  }

  lemma HostStart(target: string)
    requires target != "" && target[0] != '['
    ensures SplitTarget(target).host != "" && SplitTarget(target).host[0] == target[0]
    ensures SplitTarget(target).port.Some? ==> IsInteger(SplitTarget(target).port.value)
  {
  }

  lemma SplitWithPort(m: string, p: string)
    requires m != "" && m[0] != '[' && IsInteger(p)
    ensures SplitTarget(m + ":" + p) == Split(m, Some(p))
  {
    var out := m + ":" + p;
    IntegerBytes(p);
    forall k | |m| < k < |out| ensures out[k] != ':' {
      assert out[k] == p[k - |m| - 1];
    }
    assert out[|m|] == ':';
    assert LastIndex(out, ':') == |m|;
    assert out[..|m|] == m && out[|m| + 1..] == p;
  }

  lemma MaskHostStart(host: string)
    requires host != "" && host[0] != '['
    ensures MaskHost(host) != "" && MaskHost(host)[0] != '['
  {
    MaskHostKeepsPositions(host);
    assert MaskHost(host)[0] == host[0] || MaskHost(host)[0] == '*';
  }

  lemma SplitOfMaskedHost(target: string)
    requires target != "" && target[0] != '['
    ensures var s := SplitTarget(target);
            && MaskHost(s.host) != "" && MaskHost(s.host)[0] != '['
            && SplitTarget(WithPort(MaskHost(s.host), s.port)) == Split(MaskHost(s.host), s.port)
  {
    var s := SplitTarget(target);
    HostStart(target);
    MaskHostStart(s.host);
    if s.port.Some? {
      SplitWithPort(MaskHost(s.host), s.port.value);
    } else {
      assert s.host == target && !HasPort(target);
      if HasPort(MaskHost(target)) { MaskedPortWasPort(target); }
    }
  }

  /** Splitting a masked target finds the masked host and the same port. */
  lemma SplitOfMasked(target: string)
    requires target != ""
    ensures var s := SplitTarget(target);
            && Masked(target) != ""
            && SplitTarget(Masked(target)) == Split(if target[0] == '[' then "[****]" else MaskHost(s.host), s.port)
  {
    var s := SplitTarget(target);
    if target[0] == '[' {
      if s.port.Some? { BracketPort(target); }
      SplitOfMaskedBracket(s.port);
    } else {
      HostStart(target);
      SplitOfMaskedHost(target);
    }
  }

  lemma MaskingKeepsPort(target: string)
    requires target != ""
    ensures Masked(target) != "" && SplitTarget(Masked(target)).port == SplitTarget(target).port
  {
    SplitOfMasked(target);
  }

  lemma MaskingIsIdempotent(target: string)
    ensures Masked(Masked(target)) == Masked(target)
  {
    if target != "" {
      var s := SplitTarget(target);
      SplitOfMasked(target);
      MaskHostTwice(s.host);
      if target[0] != '[' { HostStart(target); SplitOfMaskedHost(target); }
    }
  }

  lemma Recompose(target: string)
    requires target != "" && target[0] != '['
    ensures WithPort(SplitTarget(target).host, SplitTarget(target).port) == target
  {
    hide IsInteger;
    var i := LastIndex(target, ':');
    if HasPort(target) {
      assert target[..i] + ":" + target[i + 1..] == target;
    }
  }

  lemma StarredWithPort(a: string, b: string, port: Option<string>)
    requires StarredCopy(a, b)
    ensures StarredCopy(WithPort(a, port), WithPort(b, port))
  {
  }

  /** Outside brackets masking only puts stars over bytes that are not dots. */
  lemma MaskingKeepsPositions(target: string)
    requires target == "" || target[0] != '['
    ensures StarredCopy(target, Masked(target))
  {
    if target != "" {
      var s := SplitTarget(target);
      HostStart(target);
      MaskHostKeepsPositions(s.host);
      Recompose(target);
      StarredWithPort(s.host, MaskHost(s.host), s.port);
    }
  }

  // Which bytes are hidden, position by position.

  /** Bytes from..upto-1 of the host are one label: they lie between dots or ends. */
  predicate LabelAt(host: string, from: nat, upto: nat) {
    && from <= upto <= |host|
    && (from == 0 || host[from - 1] == '.') && (upto == |host| || host[upto] == '.')
    && forall k :: from <= k < upto ==> host[k] != '.'
  }

  /** Every byte that is not a dot lies in a label. */
  lemma LabelAround(host: string, i: nat) returns (from: nat, upto: nat)
    requires i < |host| && host[i] != '.'
    ensures from <= i < upto && LabelAt(host, from, upto)
  {
    from, upto := i, i + 1;
    while from > 0 && host[from - 1] != '.'
      invariant from <= i && forall k :: from <= k <= i ==> host[k] != '.'
    {
      from := from - 1;
    }
    while upto < |host| && host[upto] != '.'
      invariant i < upto <= |host| && forall k :: from <= k < upto ==> host[k] != '.'
    {
      upto := upto + 1;
    }
  }

  lemma MaskHostCons(host: string)
    ensures var d := FirstDot(host);
            MaskHost(host) == if d == |host| then MaskLabel(host)
              else MaskLabel(host[..d]) + "." + MaskHost(host[d + 1..])
  {
    hide MaskLabel, FirstDot, Join;
    var d, ls := FirstDot(host), Labels(host);
    if d == |host| {
      MaskAllCons(host, []);
      JoinOne(MaskLabel(host));
    } else {
      var rest := Labels(host[d + 1..]);
      MaskAllCons(host[..d], rest);
      JoinCons(MaskLabel(host[..d]), MaskAll(rest));
    }
  }

  lemma MaskAllCons(l: string, ls: seq<string>)
    ensures MaskAll([l] + ls) == [MaskLabel(l)] + MaskAll(ls)
    ensures ls == [] ==> MaskAll([l]) == [MaskLabel(l)]
  {
    hide MaskLabel;
  }

  lemma JoinOne(l: string)
    ensures Join([l]) == l
  {
  }

  /** A masked label that lies behind a given start. */
  lemma LabelBehind(start: string, rest: string, start': string, rest': string, from: nat, upto: nat)
    requires |start| == |start'| <= from <= upto <= |start| + |rest| && |rest'| == |rest|
    requires rest'[from - |start|..upto - |start|] == MaskLabel(rest[from - |start|..upto - |start|])
    ensures (start' + rest')[from..upto] == MaskLabel((start + rest)[from..upto])
  {
    hide MaskLabel;
    assert (start + rest)[from..upto] == rest[from - |start|..upto - |start|];
    assert (start' + rest')[from..upto] == rest'[from - |start|..upto - |start|];
  }

  lemma {:induction false} HostPositions(host: string, from: nat, upto: nat)
    requires LabelAt(host, from, upto)
    ensures |MaskHost(host)| == |host| && MaskHost(host)[from..upto] == MaskLabel(host[from..upto])
    decreases |host|
  {
    hide MaskHost, MaskLabel, FirstDot, LabelAt;
    var d := FirstDot(host);
    MaskHostCons(host);
    LabelAndFirstDot(host, d, from, upto);
    if d == |host| {
      assert host[0..|host|] == host && MaskLabel(host)[0..|host|] == MaskLabel(host);
    } else {
      var rest, start := host[d + 1..], MaskLabel(host[..d]) + ".";
      MaskedLength(rest);
      if from == 0 {
        assert (start + MaskHost(rest))[0..d] == MaskLabel(host[..d]);
      } else {
        HostPositions(rest, from - d - 1, upto - d - 1);
        assert host == host[..d + 1] + rest;
        LabelBehind(host[..d + 1], rest, start, MaskHost(rest), from, upto);
      }
    }
  }

  /** A label is the first one or lies behind the first dot. */
  lemma LabelAndFirstDot(host: string, d: nat, from: nat, upto: nat)
    requires LabelAt(host, from, upto) && d <= |host|
    requires (forall k :: 0 <= k < d ==> host[k] != '.') && (d < |host| ==> host[d] == '.')
    ensures from <= upto <= |host| && (from == 0 ==> upto == d)
    ensures from != 0 ==> d < from && LabelAt(host[d + 1..], from - d - 1, upto - d - 1)
  {
    if from != 0 {
      var rest := host[d + 1..];
      assert forall k :: 0 <= k < |rest| ==> rest[k] == host[d + 1 + k];
    }
  }

  lemma MaskedLength(host: string)
    ensures |MaskHost(host)| == |host|
  {
    MaskHostKeepsPositions(host);
  }

  /** What is shown of a target without brackets: of a label of at most two bytes
      nothing, of one of three the last two, of a longer one the first three; and
      the dots and the port. */
  lemma HiddenPositions(target: string, from: nat, upto: nat, i: nat)
    requires target != "" && target[0] != '[' && i < |target|
    requires var host := SplitTarget(target).host;
             i < |host| && target[i] != '.' ==> from <= i < upto && LabelAt(host, from, upto)
    ensures |Masked(target)| == |target|
    ensures var host := SplitTarget(target).host;
            var hidden := i < |host| && target[i] != '.'
                            && (upto - from <= 2 || (upto - from == 3 && i == from)
                                 || (4 <= upto - from && from + 3 <= i));
            Masked(target)[i] == if hidden then '*' else target[i]
  {
    hide SplitTarget, MaskHost, MaskLabel;
    var s := SplitTarget(target);
    HostStart(target);
    Recompose(target);
    MaskHostKeepsPositions(s.host);
    SamePlaces(s.host, MaskHost(s.host), s.port, i);
    if i < |s.host| && target[i] != '.' { HiddenInHost(s.host, from, upto, i); }
  }

  lemma SamePlaces(host: string, masked: string, port: Option<string>, i: nat)
    requires |host| == |masked| && i < |WithPort(host, port)|
    ensures |WithPort(masked, port)| == |WithPort(host, port)|
    ensures i < |host| ==> WithPort(host, port)[i] == host[i] && WithPort(masked, port)[i] == masked[i]
    ensures |host| <= i ==> WithPort(masked, port)[i] == WithPort(host, port)[i]
  {
  }

  lemma HiddenInHost(host: string, from: nat, upto: nat, i: nat)
    requires LabelAt(host, from, upto) && from <= i < upto
    ensures |MaskHost(host)| == |host|
    ensures var hidden := upto - from <= 2 || (upto - from == 3 && i == from) || (4 <= upto - from && from + 3 <= i);
            MaskHost(host)[i] == if hidden then '*' else host[i]
  {
    hide MaskHost, MaskLabel;
    HostPositions(host, from, upto);
    assert host[from..upto][i - from] == host[i];
    assert MaskHost(host)[from..upto][i - from] == MaskHost(host)[i];
    LabelByte(host[from..upto], i - from);
  }

  lemma LabelByte(l: string, i: nat)
    requires i < |l|
    ensures var hidden := |l| <= 2 || (|l| == 3 && i == 0) || (4 <= |l| && 3 <= i);
            MaskLabel(l)[i] == if hidden then '*' else l[i]
  {
  }

  /** A target that starts with a bracket is hidden up to the last "]:", after
      which its port is shown; without one it is hidden altogether. */
  lemma BracketsAreHidden(target: string, i: int)
    requires target != "" && target[0] == '[' && -1 <= i < |target| - 1
    requires 0 <= i ==> target[i] == ']' && target[i + 1] == ':'
    requires forall k :: i < k < |target| - 1 ==> !(target[k] == ']' && target[k + 1] == ':')
    ensures Masked(target) == if i == -1 then "[****]" else "[****]:" + target[i + 2..]
  {
    hide LastBracket, MaskHost, HasPort, LastIndex, IsInteger;
    assert LastBracket(target) == i;
    assert i == -1 || SplitTarget(target) == Split(target[..i + 1], Some(target[i + 2..]));
  }

  function Pow10(n: nat): nat { if n == 0 then 1 else 10 * Pow10(n - 1) }

  lemma {:induction false} ValueBound(digits: string)
    requires AllDigits(digits)
    ensures Value(digits) < Pow10(|digits|)
  {
    if digits != "" { ValueBound(digits[..|digits| - 1]); }
  }

  lemma {:induction false} PowersGrow(n: nat, m: nat)
    requires n <= m
    ensures Pow10(n) <= Pow10(m)
    decreases m
  {
    if n < m { PowersGrow(n, m - 1); }
  }

  /** The text after the last colon is a port exactly if it consists of digits, at
      least one, perhaps with a sign before them; beyond 18 bytes the value counts. */
  lemma PortIsNumber(host: string, tail: string)
    requires host != "" && host[0] != '[' && ':' !in tail && |tail| <= 18
    ensures var digits := if tail != "" && (tail[0] == '+' || tail[0] == '-') then tail[1..] else tail;
            SplitTarget(host + ":" + tail)
              == if digits != "" && forall i :: 0 <= i < |digits| ==> '0' <= digits[i] <= '9'
                 then Split(host, Some(tail)) else Split(host + ":" + tail, None)
  {
    hide IsInteger;
    var target := host + ":" + tail;
    var digits := if tail != "" && (tail[0] == '+' || tail[0] == '-') then tail[1..] else tail;
    assert target[|host|] == ':' && forall k :: |host| < k < |target| ==> target[k] == tail[k - |host| - 1];
    assert LastIndex(target, ':') == |host|;
    assert target[..|host|] == host && target[|host| + 1..] == tail;
    IsNumber(tail);
  }

  lemma IsNumber(tail: string)
    requires |tail| <= 18
    ensures var digits := if tail != "" && (tail[0] == '+' || tail[0] == '-') then tail[1..] else tail;
            IsInteger(tail) <==> digits != "" && forall i :: 0 <= i < |digits| ==> '0' <= digits[i] <= '9'
  {
    hide Value;
    var digits := if tail != "" && (tail[0] == '+' || tail[0] == '-') then tail[1..] else tail;
    if AllDigits(digits) { SmallValue(digits); }
  }

  lemma SmallValue(digits: string)
    requires AllDigits(digits) && |digits| <= 18
    ensures Value(digits) < 0x7fff_ffff_ffff_ffff
  {
    ValueBound(digits);
    PowersGrow(|digits|, 18);
    assert Pow10(3) == 1000;
    assert Pow10(6) == 1_000_000;
    assert Pow10(9) == 1_000_000_000;
    assert Pow10(12) == 1_000_000_000_000;
    assert Pow10(15) == 1_000_000_000_000_000;
    assert Pow10(18) == 1_000_000_000_000_000_000;
  }

  /** A target without a colon has no port. */
  lemma NoColonNoPort(target: string)
    requires target != "" && target[0] != '[' && ':' !in target
    ensures SplitTarget(target) == Split(target, None)
  {
  }
}
