/** Names of pages: a file and an index in it. */
module Pages {
  datatype PageId = PageId(file: nat, idx: nat)
}
