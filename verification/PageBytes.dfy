/** Pages as byte sequences, and transfers into part of a page. */
module PageBytes {
  import opened Common

  const PAGE: nat := 4096

  type Page = s: seq<Byte> | |s| == PAGE witness seq(PAGE, _ => 0)

  function Zeros(): (page: Page)
    ensures forall i :: 0 <= i < PAGE ==> page[i] == 0
  {
    seq(PAGE, _ => 0)
  }

  /** Part of a page: the bytes of one transfer that fall into it. */
  datatype Piece = Piece(start: nat, bytes: seq<Byte>) {
    predicate Fits() { start + |bytes| <= PAGE }
    predicate Covers(i: int) { start <= i < start + |bytes| }
  }

  function Overlay(page: Page, piece: Piece): (r: Page)
    requires piece.Fits()
    ensures forall i :: 0 <= i < PAGE ==> r[i] == if piece.Covers(i) then piece.bytes[i - piece.start] else page[i]
  {
    page[..piece.start] + piece.bytes + page[piece.start + |piece.bytes|..]
  }
}
