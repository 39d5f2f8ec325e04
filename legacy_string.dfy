/** The older copy of the string helpers in project/src/String.cpp. Its `Equals`, `Contains` and
    `Split` bodies are the same as those in Utility/StringUtil.cpp, so each one here is stated against
    the same specification and runs the same steps. */
module LegacyString {
  import StringUtil

  method Equals(str1: string, str2: string, caseSensitive: bool) returns (r: bool)
    ensures r == StringUtil.EqualsSpec(str1, str2, caseSensitive)
    ensures |str1| != |str2| ==> !r
    ensures caseSensitive ==> (r <==> str1 == str2)
  {
    r := StringUtil.Equals(str1, str2, caseSensitive);
  }

  method Contains(target: string, find: string) returns (r: bool)
    ensures r <==> StringUtil.IsSubstring(StringUtil.CStr(find), StringUtil.CStr(target))
    ensures '\0' !in target && '\0' !in find ==> (r <==> StringUtil.IsSubstring(find, target))
  {
    r := StringUtil.Contains(target, find);
    if '\0' !in target && '\0' !in find {
      StringUtil.ContainsIsSubstring(target, find);
    }
  }

  method Split(str: string, delimiter: string) returns (output: seq<string>)
    requires delimiter != ""
    ensures output == StringUtil.SplitSpec(str, delimiter)
    ensures |output| == 1 + StringUtil.CountFrom(str, delimiter, 0)
    ensures forall k :: 0 <= k < |output| ==> !StringUtil.IsSubstring(delimiter, output[k])
    ensures !StringUtil.IsSubstring(delimiter, str) ==> output == [str]
  {
    output := StringUtil.Split(str, delimiter);
    StringUtil.SplitCount(str, delimiter);
    StringUtil.SplitPiecesFree(str, delimiter);
  }
}
