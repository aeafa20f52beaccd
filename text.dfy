/** Text helpers of the cost script: JavaScript's whitespace class, `trim`,
    whitespace collapsing (`replace(/\s+/g, ' ')`), `toInt` and the last
    segment of a link path. */
module Text {
  import opened Wrappers

  /** The characters matched by `\s` in a JavaScript regular expression; they
      are also the characters `String.prototype.trim` removes. */
  predicate IsWs(c: char) {
    c == ' ' || c == '\t' || c == '\n' || c == '\r' || c == '\U{000B}' || c == '\U{000C}'
    || c == '\U{00A0}' || c == '\U{1680}' || ('\U{2000}' <= c <= '\U{200A}')
    || c == '\U{2028}' || c == '\U{2029}' || c == '\U{202F}' || c == '\U{205F}'
    || c == '\U{3000}' || c == '\U{FEFF}'
  }

  /** `\d` without the `u` flag: the ASCII decimal digits. */
  predicate IsDigit(c: char) {
    '0' <= c <= '9'
  }

  /** Drops the leading whitespace run. */
  function TrimStart(s: string): (r: string)
    ensures |r| <= |s| && r == s[|s| - |r|..]
    ensures r == [] || !IsWs(r[0])
    ensures forall i :: 0 <= i < |s| - |r| ==> IsWs(s[i])
  {
    if s != [] && IsWs(s[0]) then TrimStart(s[1..]) else s
  }

  /** Drops the trailing whitespace run. */
  function TrimEnd(s: string): (r: string)
    ensures |r| <= |s| && r == s[..|r|]
    ensures r == [] || !IsWs(r[|r| - 1])
    ensures forall i :: |r| <= i < |s| ==> IsWs(s[i])
  {
    if s != [] && IsWs(s[|s| - 1]) then TrimEnd(s[..|s| - 1]) else s
  }

  /** `String.prototype.trim`. */
  function Trim(s: string): (r: string)
    ensures r == [] || (!IsWs(r[0]) && !IsWs(r[|r| - 1]))
    ensures exists i, j :: 0 <= i <= j <= |s| && r == s[i..j]
              && (forall k :: 0 <= k < i ==> IsWs(s[k]))
              && (forall k :: j <= k < |s| ==> IsWs(s[k]))
  {
    var t := TrimStart(s);
    var r := TrimEnd(t);
    assert r == s[|s| - |t|..|s| - |t| + |r|];
    r
  }

  /** No whitespace other than a plain space, and never two whitespace
      characters in a row: the shape `replace(/\s+/g, ' ')` leaves. */
  ghost predicate Collapsed(s: string) {
    && (forall i :: 0 <= i < |s| && IsWs(s[i]) ==> s[i] == ' ')
    && (forall i, j :: 0 <= i && j == i + 1 && j < |s| ==> !(IsWs(s[i]) && IsWs(s[j])))
  }

  /** `replace(/\s+/g, ' ')`: every maximal whitespace run becomes one space. */
  function Collapse(s: string): (r: string)
    ensures Collapsed(r)
    ensures r == [] <==> s == []
    ensures r != [] ==> (IsWs(r[0]) <==> IsWs(s[0]))
    decreases |s|
  {
    if s == [] then []
    else if IsWs(s[0]) then [' '] + Collapse(TrimStart(s))
    else [s[0]] + Collapse(s[1..])
  }

  /** The non-whitespace characters of `s`, in order. */
  function Visible(s: string): (r: string)
    ensures |r| <= |s|
    ensures forall i :: 0 <= i < |r| ==> !IsWs(r[i])
  {
    if s == [] then [] else (if IsWs(s[0]) then [] else [s[0]]) + Visible(s[1..])
  }

  lemma {:induction false} VisibleWsPrefix(s: string, k: nat)
    requires k <= |s|
    requires forall i :: 0 <= i < k ==> IsWs(s[i])
    ensures Visible(s) == Visible(s[k..])
  {
    if k > 0 {
      assert s[1..][k - 1..] == s[k..];
      VisibleWsPrefix(s[1..], k - 1);
    }
  }

  /** Collapsing changes only whitespace: the visible text is unchanged. */
  lemma {:induction false} CollapseKeepsVisible(s: string)
    ensures Visible(Collapse(s)) == Visible(s)
    decreases |s|
  {
    if s != [] {
      if IsWs(s[0]) {
        var t := TrimStart(s);
        VisibleWsPrefix(s, |s| - |t|);
        CollapseKeepsVisible(t);
        assert ([' '] + Collapse(t))[1..] == Collapse(t);
      } else {
        CollapseKeepsVisible(s[1..]);
        assert ([s[0]] + Collapse(s[1..]))[1..] == Collapse(s[1..]);
      }
    }
  }

  lemma {:induction false} VisibleAppend(a: string, b: string)
    ensures Visible(a + b) == Visible(a) + Visible(b)
    decreases |a|
  {
    if a == [] {
      assert a + b == b;
    } else {
      assert (a + b)[1..] == a[1..] + b;
      VisibleAppend(a[1..], b);
    }
  }

  /** The last character of the collapsed text is whitespace exactly when
      the last character of the input is. */
  lemma {:induction false} CollapseLast(s: string)
    requires s != []
    ensures IsWs(Collapse(s)[|Collapse(s)| - 1]) <==> IsWs(s[|s| - 1])
    decreases |s|
  {
    if IsWs(s[0]) {
      var t := TrimStart(s);
      if t != [] {
        CollapseLast(t);
      }
    } else if |s| > 1 {
      CollapseLast(s[1..]);
    }
  }

  /** The label of a rank header: `trim()` and then `replace(/\s+/g, ' ')`. */
  function NormalLabel(s: string): (l: string) {
    Collapse(Trim(s))
  }

  lemma TrimStartKeepsVisible(s: string)
    ensures Visible(TrimStart(s)) == Visible(s)
  {
    VisibleWsPrefix(s, |s| - |TrimStart(s)|);
  }

  lemma TrimEndKeepsVisible(t: string)
    ensures Visible(TrimEnd(t)) == Visible(t)
  {
    var r := TrimEnd(t);
    var tail := t[|r|..];
    assert t == r + tail;
    VisibleAppend(r, tail);
    VisibleWsPrefix(tail, |tail|);
  }

  /** Trimming removes only whitespace. */
  lemma TrimKeepsVisible(s: string)
    ensures Visible(Trim(s)) == Visible(s)
  {
    TrimStartKeepsVisible(s);
    TrimEndKeepsVisible(TrimStart(s));
  }

  /** A label has single spaces between words, none at either end, and the
      same visible characters as the header text. */
  lemma LabelShape(s: string)
    ensures Collapsed(NormalLabel(s))
    ensures NormalLabel(s) == [] || (NormalLabel(s)[0] != ' ' && NormalLabel(s)[|NormalLabel(s)| - 1] != ' ')
    ensures Visible(NormalLabel(s)) == Visible(s)
  {
    var t := Trim(s);
    var l := Collapse(t);
    if t != [] {
      CollapseLast(t);
      assert !IsWs(l[0]) && !IsWs(l[|l| - 1]);
    }
    CollapseKeepsVisible(t);
    TrimKeepsVisible(s);
  }

  lemma CollapsedSuffix(s: string, k: nat)
    requires Collapsed(s) && k <= |s|
    ensures Collapsed(s[k..])
  {
    var t := s[k..];
    forall i, j | 0 <= i && j == i + 1 && j < |t|
      ensures !(IsWs(t[i]) && IsWs(t[j]))
    {
      assert t[i] == s[k + i] && t[j] == s[k + j];
    }
  }

  /** Text that is already collapsed is left as it is. */
  lemma {:induction false} CollapseFixed(s: string)
    requires Collapsed(s)
    ensures Collapse(s) == s
    decreases |s|
  {
    if s != [] {
      CollapsedSuffix(s, 1);
      if IsWs(s[0]) {
        assert |s| > 1 ==> !IsWs(s[1]);
        assert TrimStart(s) == s[1..];
      }
      CollapseFixed(s[1..]);
    }
  }

  /** Collapsing only ever introduces spaces: a visible character absent
      from the input is absent from the output. */
  lemma {:induction false} CollapseKeepsOut(s: string, x: char)
    requires !IsWs(x) && forall k :: 0 <= k < |s| ==> s[k] != x
    ensures forall k :: 0 <= k < |Collapse(s)| ==> Collapse(s)[k] != x
    decreases |s|
  {
    if s != [] {
      if IsWs(s[0]) {
        var t := TrimStart(s);
        assert forall k :: 0 <= k < |t| ==> t[k] == s[|s| - |t| + k];
        CollapseKeepsOut(t, x);
      } else {
        CollapseKeepsOut(s[1..], x);
      }
    }
  }

  /** Joining two collapsed texts gives a collapsed text unless whitespace
      meets whitespace at the seam. */
  lemma CollapsedJoin(a: string, b: string)
    requires Collapsed(a) && Collapsed(b)
    requires a == [] || b == [] || !IsWs(a[|a| - 1]) || !IsWs(b[0])
    ensures Collapsed(a + b)
  {
    var s := a + b;
    forall i, j | 0 <= i && j == i + 1 && j < |s|
      ensures !(IsWs(s[i]) && IsWs(s[j]))
    {
      if j < |a| {
        assert s[i] == a[i] && s[j] == a[j];
      } else if i >= |a| {
        assert s[i] == b[i - |a|] && s[j] == b[j - |a|];
      }
    }
  }

  /** A collapsed prefix that ends in a visible character is left as it is. */
  lemma {:induction false} CollapseKeepsPrefix(a: string, b: string)
    requires Collapsed(a) && (a == [] || !IsWs(a[|a| - 1]))
    ensures Collapse(a + b) == a + Collapse(b)
    decreases |a|
  {
    if a == [] {
      assert a + b == b;
    } else {
      var rest := a[1..];
      assert rest == [] || rest[|rest| - 1] == a[|a| - 1];
      CollapseHead(a, b);
      CollapsedSuffix(a, 1);
      CollapseKeepsPrefix(rest, b);
      ConsAppend(a, Collapse(b));
    }
  }

  lemma CollapseConsVisible(c: char, t: string)
    requires !IsWs(c)
    ensures Collapse([c] + t) == [c] + Collapse(t)
  {
    assert ([c] + t)[1..] == t;
  }

  lemma CollapseConsSpace(t: string)
    requires t == [] || !IsWs(t[0])
    ensures Collapse([' '] + t) == [' '] + Collapse(t)
  {
    assert ([' '] + t)[1..] == t;
    assert TrimStart([' '] + t) == t;
  }

  lemma TrimTwoSpaces(w: string)
    requires w == [] || !IsWs(w[0])
    ensures TrimStart([' ', ' '] + w) == w
  {
    assert ([' ', ' '] + w)[1..] == [' '] + w;
    assert ([' '] + w)[1..] == w;
  }

  lemma CollapseSpaceSpace(t: string)
    requires Collapsed(t) && t != [] && t[0] == ' '
    ensures Collapse([' '] + t) == t
  {
    var w := t[1..];
    assert t == [' '] + w;
    assert [' '] + t == [' ', ' '] + w;
    assert |t| > 1 ==> !IsWs(t[1]);
    TrimTwoSpaces(w);
    CollapsedSuffix(t, 1);
    CollapseFixed(w);
  }

  /** Every whitespace run becomes exactly one space: a run `w` followed by
      a text that does not start with whitespace collapses to `' '` and
      the collapsed rest. */
  lemma CollapseRun(w: string, b: string)
    requires w != [] && forall i :: 0 <= i < |w| ==> IsWs(w[i])
    requires b == [] || !IsWs(b[0])
    ensures Collapse(w + b) == [' '] + Collapse(b)
  {
    TrimStartRun(w, b);
  }

  lemma {:induction false} TrimStartRun(w: string, b: string)
    requires forall i :: 0 <= i < |w| ==> IsWs(w[i])
    requires b == [] || !IsWs(b[0])
    ensures TrimStart(w + b) == b
    decreases |w|
  {
    if w == [] {
      assert w + b == b;
    } else {
      assert (w + b)[1..] == w[1..] + b;
      TrimStartRun(w[1..], b);
    }
  }

  /** Collapsing the concatenation of two collapsed texts merges the one
      space pair that may meet at the junction, and nothing else. */
  lemma {:induction false} CollapseAppend(a: string, b: string)
    requires Collapsed(a) && Collapsed(b)
    ensures Collapse(a + b) == Joined(a, b)
    decreases |a|
  {
    if a == [] {
      assert a + b == b;
      CollapseFixed(b);
    } else if |a| == 1 && a[0] == ' ' {
      CollapseAppendSpace(b);
    } else {
      CollapsedSuffix(a, 1);
      CollapseAppend(a[1..], b);
      CollapseAppendStep(a, b);
    }
  }

  /** `a + b`, with the space pair at the junction merged. */
  function Joined(a: string, b: string): (s: string) {
    if a != [] && b != [] && a[|a| - 1] == ' ' && b[0] == ' ' then a + b[1..] else a + b
  }

  lemma CollapseAppendSpace(b: string)
    requires Collapsed(b)
    ensures Collapse([' '] + b) == Joined([' '], b)
  {
    if b != [] && b[0] == ' ' {
      CollapseSpaceSpace(b);
      assert [' '] + b[1..] == b;
    } else {
      CollapseConsSpace(b);
      CollapseFixed(b);
    }
  }

  lemma ConsAppend(a: string, t: string)
    requires a != []
    ensures [a[0]] + (a[1..] + t) == a + t
  {
    assert a == [a[0]] + a[1..];
  }

  lemma CollapseAppendStep(a: string, b: string)
    requires Collapsed(a) && a != [] && !(|a| == 1 && a[0] == ' ')
    requires Collapse(a[1..] + b) == Joined(a[1..], b)
    ensures Collapse(a + b) == Joined(a, b)
  {
    CollapseHead(a, b);
    JoinedHead(a, b);
  }

  lemma CollapseHead(a: string, b: string)
    requires Collapsed(a) && a != [] && !(|a| == 1 && a[0] == ' ')
    ensures Collapse(a + b) == [a[0]] + Collapse(a[1..] + b)
  {
    var rest := a[1..];
    assert a + b == [a[0]] + (rest + b);
    if IsWs(a[0]) {
      assert !IsWs(a[1]);
      CollapseConsSpace(rest + b);
    } else {
      CollapseConsVisible(a[0], rest + b);
    }
  }

  lemma JoinedHead(a: string, b: string)
    requires a != [] && !(|a| == 1 && a[0] == ' ')
    ensures [a[0]] + Joined(a[1..], b) == Joined(a, b)
  {
    if b != [] && a[|a| - 1] == ' ' && b[0] == ' ' {
      ConsAppend(a, b[1..]);
    } else {
      ConsAppend(a, b);
    }
  }

  /** The characters that survive `String(txt).replace(/[^\d]/g, '')`. */
  function KeepDigits(s: string): (d: string)
    ensures |d| <= |s|
    ensures forall i :: 0 <= i < |d| ==> IsDigit(d[i])
  {
    if s == [] then []
    else KeepDigits(s[..|s| - 1]) + (if IsDigit(s[|s| - 1]) then [s[|s| - 1]] else [])
  }

  /** The number a string of decimal digits spells, most significant first
      (what `parseInt(d, 10)` yields for a non-empty digit string). */
  function DecimalValue(d: string): (n: nat)
    requires forall i :: 0 <= i < |d| ==> IsDigit(d[i])
  {
    if d == [] then 0
    else 10 * DecimalValue(d[..|d| - 1]) + DigitValue(d[|d| - 1])
  }

  function DigitValue(c: char): (n: nat)
    requires IsDigit(c)
  {
    c as int - '0' as int
  }

  /** `toInt`: absent or empty text is 0; otherwise the digits are kept and
      parsed, and a text without digits (NaN) is 0 as well. */
  function ToInt(txt: Option<string>): (n: nat) {
    match txt
    case None => 0
    case Some(s) =>
      if s == [] then 0
      else
        var d := KeepDigits(s);
        if d == [] then 0 else DecimalValue(d)
  }

  lemma {:induction false} KeepDigitsAppend(a: string, b: string)
    ensures KeepDigits(a + b) == KeepDigits(a) + KeepDigits(b)
    decreases |b|
  {
    if b == [] {
      assert a + b == a;
    } else {
      var b' := b[..|b| - 1];
      assert (a + b)[..|a + b| - 1] == a + b';
      KeepDigitsAppend(a, b');
    }
  }

  /** Every character that is not a digit is ignored by `toInt`. */
  lemma ToIntIgnoresNonDigit(a: string, c: char, b: string)
    requires !IsDigit(c)
    ensures ToInt(Some(a + [c] + b)) == ToInt(Some(a + b))
  {
    assert KeepDigits([c]) == [] by {
      assert [c][..0] == [];
    }
    KeepDigitsAppend(a + [c], b);
    KeepDigitsAppend(a, [c]);
    KeepDigitsAppend(a, b);
    assert KeepDigits(a + [c] + b) == KeepDigits(a + b);
  }

  /** A text without a single digit reads as 0. */
  lemma {:induction false} ToIntNoDigits(s: string)
    requires forall i :: 0 <= i < |s| ==> !IsDigit(s[i])
    ensures KeepDigits(s) == [] && ToInt(Some(s)) == 0
  {
    if s != [] {
      ToIntNoDigits(s[..|s| - 1]);
    }
  }

  /** Each further digit shifts the value one decimal place. */
  lemma ToIntAppendDigit(s: string, c: char)
    requires IsDigit(c)
    ensures ToInt(Some(s + [c])) == 10 * ToInt(Some(s)) + DigitValue(c)
  {
    assert (s + [c])[..|s|] == s;
    var d := KeepDigits(s);
    assert KeepDigits(s + [c]) == d + [c];
    assert (d + [c])[..|d|] == d;
    assert ToInt(Some(s)) == DecimalValue(d) by {
      if s == [] {
        assert d == [];
      }
    }
  }

  /** The decimal numeral of `n`, without grouping. */
  function Decimal(n: nat): (r: string)
    ensures r != [] && forall i :: 0 <= i < |r| ==> IsDigit(r[i])
  {
    (if n < 10 then [] else Decimal(n / 10)) + [('0' as int + n % 10) as char]
  }

  /** `toInt` reads back a plain decimal numeral: it inverts `Decimal`. */
  lemma {:induction false} ToIntDecimal(n: nat)
    ensures ToInt(Some(Decimal(n))) == n
  {
    var r := Decimal(n);
    var c := ('0' as int + n % 10) as char;
    if n < 10 {
      assert r == [] + [c];
      ToIntAppendDigit([], c);
      assert ToInt(Some([])) == 0;
    } else {
      var p := Decimal(n / 10);
      ToIntDecimal(n / 10);
      assert r == p + [c];
      ToIntAppendDigit(p, c);
    }
  }

  /** The text after the last `/`: `href.split('/').pop()`. */
  function LastSegment(s: string): (r: string)
    ensures |r| <= |s| && r == s[|s| - |r|..]
    ensures forall i :: 0 <= i < |r| ==> r[i] != '/'
    ensures |r| == |s| || s[|s| - |r| - 1] == '/'
  {
    if s == [] || s[|s| - 1] == '/' then []
    else LastSegment(s[..|s| - 1]) + [s[|s| - 1]]
  }

  /** The last segment of `base + "/" + id` is `id`, for an `id` without `/`. */
  lemma {:induction false} LastSegmentOfPath(base: string, id: string)
    requires forall i :: 0 <= i < |id| ==> id[i] != '/'
    ensures LastSegment(base + "/" + id) == id
    decreases |id|
  {
    var s := base + "/" + id;
    if id == [] {
      assert s[|s| - 1] == '/';
    } else {
      var id' := id[..|id| - 1];
      assert s[..|s| - 1] == base + "/" + id';
      LastSegmentOfPath(base, id');
    }
  }
}
