/** StringExtensions.ToDisplayName of Alkami.Framework. The loop keeps its
    working variables outside the loop body, but each is assigned before it is
    read on every iteration, so it computes the same display name as the
    Alkami.Utilities version. */
module FrameworkDisplayName {
  import opened Wrappers
  import opened Strings
  import opened DisplayName

  /** ToDisplayName; a null argument (None) raises ArgumentNullException. */
  method ToDisplayName(value: Option<string>) returns (r: Result<string>)
    ensures value.None? ==> r == Err(ArgumentNull("value"))
    ensures value.Some? ==> r == Ok(DisplayNameOf(value.value))
  {
    if value.None? {
      return Err(ArgumentNull("value"));
    }
    var s := value.value;
    var sb := "";
    var first := true;
    var last := false;
    var lastChar := ' ';
    var nextChar := ' ';
    var currentChar := ' ';
    var i := 0;
    while i < |s|
      invariant 0 <= i <= |s|
      invariant first <==> i == 0
      invariant lastChar == if i == 0 then ' ' else Cur(s, i - 1)
      invariant sb == Render(s, i)
    {
      last := i == |s| - 1;
      currentChar := s[i];
      if !last {
        nextChar := s[i + 1];
      } else {
        nextChar := ' ';
      }
      if IsLower(currentChar) {
        if first {
          currentChar := ToUpper(currentChar);
        }
      }
      if !first {
        if IsUpper(currentChar) && IsLower(lastChar) {
          sb := sb + " ";
        } else if IsUpper(lastChar) && IsUpper(currentChar) && IsLower(nextChar) {
          sb := sb + " ";
        } else if !IsDigit(lastChar) && IsDigit(currentChar) {
          sb := sb + " ";
        }
      }
      sb := sb + [currentChar];
      if IsDigit(currentChar) && !IsDigit(nextChar) && !last {
        sb := sb + " ";
      }
      first := false;
      lastChar := currentChar;
      i := i + 1;
    }
    return Ok(sb);
  }
}
