/** Small vocabulary shared by the models of the server's components. */
module Common {

  datatype Option<+T> = None | Some(value: T)

  /** `s` without the element at index `i`. */
  ghost function Without<T>(s: seq<T>, i: nat): (r: seq<T>)
    requires i < |s|
    ensures |r| == |s| - 1
    ensures forall j :: 0 <= j < i ==> r[j] == s[j]
    ensures forall j :: i <= j < |r| ==> r[j] == s[j + 1]
  {
    s[..i] + s[i + 1..]
  }
}
