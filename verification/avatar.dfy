/**
 * The avatar shown on the `/vote` screen: the profile picture url, unless its
 * lower-cased form ends in `.webp`, in which case a bundled placeholder.
 */
module Avatar {

  const NoAvatar: string := "/images/no_avatar.png"
  const WebpSuffix: string := ".webp"

  /** `toLowerCase` on one character, for the ASCII letters. */
  function LowerChar(c: char): char
  {
    if 'A' <= c <= 'Z' then (c as int + 32) as char else c
  }

  function ToLower(s: string): string
  {
    seq(|s|, i requires 0 <= i < |s| => LowerChar(s[i]))
  }

  predicate EndsWith(s: string, suffix: string)
  {
    |suffix| <= |s| && s[|s| - |suffix|..] == suffix
  }

  /** The url's last five characters spell `.webp` in any mix of letter cases. */
  predicate WebpName(url: string)
  {
    var n := |url|;
    && n >= 5
    && url[n - 5] == '.'
    && url[n - 4] in {'w', 'W'}
    && url[n - 3] in {'e', 'E'}
    && url[n - 2] in {'b', 'B'}
    && url[n - 1] in {'p', 'P'}
  }

  lemma WebpSuffixCases(url: string)
    ensures EndsWith(ToLower(url), WebpSuffix) <==> WebpName(url)
  {
    var low := ToLower(url);
    var n := |url|;
    if n >= 5 {
      var tail := low[n - 5..];
      assert tail[0] == LowerChar(url[n - 5]) && tail[1] == LowerChar(url[n - 4]);
      assert tail[2] == LowerChar(url[n - 3]) && tail[3] == LowerChar(url[n - 2]);
      assert tail[4] == LowerChar(url[n - 1]);
      if WebpName(url) {
        assert tail == WebpSuffix;
      }
    }
  }

  /** The `src` of the avatar image for a profile picture url. */
  function AvatarSrc(pfpUrl: string): (src: string)
    ensures src == if WebpName(pfpUrl) then NoAvatar else pfpUrl
  {
    WebpSuffixCases(pfpUrl);
    if EndsWith(ToLower(pfpUrl), WebpSuffix) then NoAvatar else pfpUrl
  }

  /** Whatever the profile holds, the image the screen shows is never a `.webp` file. */
  lemma AvatarNeverWebp(pfpUrl: string)
    ensures !EndsWith(ToLower(AvatarSrc(pfpUrl)), WebpSuffix)
  {
    WebpSuffixCases(AvatarSrc(pfpUrl));
  }
}
