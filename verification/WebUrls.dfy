module WebUrls {
  type Url = string

  predicate NoDup(us: seq<Url>) {
    forall i, j | 0 <= i < j < |us| :: us[i] != us[j]
  }
}
