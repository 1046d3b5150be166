/** The few `str` methods the report filters and the parsers rely on. */
module PyString {
  import opened Wrappers

  /** The characters removed by `str.strip()`. */
  predicate IsSpace(c: char) {
    var n := c as int;
    || 0x09 <= n <= 0x0d
    || 0x1c <= n <= 0x20
    || n in {0x85, 0xa0, 0x1680, 0x2028, 0x2029, 0x202f, 0x205f, 0x3000}
    || 0x2000 <= n <= 0x200a
  }

  function StripLeft(s: string): string {
    if s != "" && IsSpace(s[0]) then StripLeft(s[1..]) else s
  }

  function StripRight(s: string): string {
    if s != "" && IsSpace(s[|s| - 1]) then StripRight(s[..|s| - 1]) else s
  }

  function Strip(s: string): string {
    StripRight(StripLeft(s))
  }

  /** `s.lstrip('/')` */
  function StripSlashes(s: string): string {
    if s != "" && s[0] == '/' then StripSlashes(s[1..]) else s
  }

  /** `s.replace('\\', '/')` */
  function NormalizePath(s: string): string {
    seq(|s|, i requires 0 <= i < |s| => if s[i] == '\\' then '/' else s[i])
  }

  /** `s.find(sub)`, with None for -1. */
  function Find(s: string, sub: string): (index: Option<nat>)
    ensures index.Some? ==> index.value + |sub| <= |s| && sub <= s[index.value..]
  {
    if sub <= s then Some(0)
    else if s == "" then None
    else match Find(s[1..], sub)
      case None => None
      case Some(i) => Some(i + 1)
  }

  /** `sub in s` */
  predicate Contains(s: string, sub: string) {
    Find(s, sub).Some?
  }

  /** `s.split(sep)[-1]` */
  function AfterLastSplit(s: string, sep: string): string
    requires sep != ""
    decreases |s|
  {
    match Find(s, sep)
    case None => s
    case Some(i) => AfterLastSplit(s[i + |sep|..], sep)
  }

  lemma {:induction false} StripRightKeepsPrefix(s: string, prefix: string)
    requires prefix <= s && prefix != "" && !IsSpace(prefix[|prefix| - 1])
    ensures prefix <= StripRight(s)
  {
    if |s| > |prefix| && IsSpace(s[|s| - 1]) {
      StripRightKeepsPrefix(s[..|s| - 1], prefix);
    }
  }

  /** Stripping a line that starts with a visible keyword leaves the keyword in front. */
  lemma StripKeepsPrefix(s: string, prefix: string)
    requires prefix <= s && prefix != ""
    requires !IsSpace(prefix[0]) && !IsSpace(prefix[|prefix| - 1])
    ensures prefix <= Strip(s)
  {
    assert StripLeft(s) == s;
    StripRightKeepsPrefix(s, prefix);
  }
}
