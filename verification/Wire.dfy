// What travels between peers (crates/clove-core/src/wire.rs) and how a torrent
// is cut into pieces and blocks.
module Wire {
  import opened Prelude

  const BLOCK_LEN: nat := 16384

  /** A block by piece index and block number. */
  type Block = (nat, nat)

  datatype BlockRequest = BlockRequest(index: nat, begin: nat, length: nat)

  datatype Message =
    | KeepAlive
    | Choke
    | Unchoke
    | Interested
    | NotInterested
    | Have(piece: nat)
    | Bitfield(bits: seq<bv8>)
    | Request(req: BlockRequest)
    | Piece(index: nat, begin: nat, block: seq<byte>)
    | Cancel(req: BlockRequest)
    | HaveAll
    | HaveNone
    | SuggestPiece(piece: nat)
    | RejectRequest(req: BlockRequest)
    | AllowedFast(piece: nat)
    | Extended(id: nat)

  /** Piece count and lengths of one torrent. */
  datatype Geometry = Geometry(numPieces: nat, pieceLength: nat, totalLength: nat)
  {
    /** What an accepted metainfo guarantees: a positive piece length, and as
        many pieces as the total length needs. */
    predicate Valid() {
      && 0 < pieceLength <= U32_MAX
      && numPieces <= U32_MAX
      && numPieces == DivCeil(totalLength, pieceLength)
    }

    function PieceStart(index: nat): nat { index * pieceLength }

    /** Length of a piece; the last one may be short, one past the end is empty. */
    function PieceLen(index: nat): nat {
      if PieceStart(index) >= totalLength then 0
      else Min(totalLength - PieceStart(index), pieceLength)
    }

    function Blocks(index: nat): nat { DivCeil(PieceLen(index), BLOCK_LEN) }

    function BlockLen(index: nat, block: nat): nat {
      if block * BLOCK_LEN >= PieceLen(index) then 0
      else Min(PieceLen(index) - block * BLOCK_LEN, BLOCK_LEN)
    }

    function BlockStart(b: Block): nat { PieceStart(b.0) + b.1 * BLOCK_LEN }

    function RequestFor(b: Block): BlockRequest {
      BlockRequest(b.0, b.1 * BLOCK_LEN, BlockLen(b.0, b.1))
    }

    /** The block exists in the torrent. */
    predicate InRange(b: Block) { b.0 < numPieces && b.1 < Blocks(b.0) }

    /** Every piece holds at least one byte and ends inside the torrent. */
    lemma PieceInside(index: nat)
      requires Valid() && index < numPieces
      ensures 0 < PieceLen(index) <= pieceLength
      ensures PieceStart(index) + PieceLen(index) <= totalLength
      ensures Blocks(index) > 0
    {
      var q := (totalLength + pieceLength - 1) / pieceLength;
      assert index * pieceLength <= (q - 1) * pieceLength by { MulMonotone(index, q - 1, pieceLength); }
      assert (q - 1) * pieceLength == q * pieceLength - pieceLength;
      assert q * pieceLength <= totalLength + pieceLength - 1;
    }

    /** Pieces do not overlap: one ends no later than the next begins. */
    lemma PiecesApart(i: nat, j: nat)
      requires Valid() && i < j
      ensures PieceStart(i) + PieceLen(i) <= PieceStart(j)
    {
      MulMonotone(i + 1, j, pieceLength);
      assert (i + 1) * pieceLength == i * pieceLength + pieceLength;
    }

    /** A block lies inside its piece, is not empty, and all but the last block
        of a piece are full. */
    lemma BlockInside(b: Block)
      requires InRange(b)
      ensures 0 < BlockLen(b.0, b.1) <= BLOCK_LEN
      ensures b.1 * BLOCK_LEN + BlockLen(b.0, b.1) <= PieceLen(b.0)
      ensures b.1 + 1 < Blocks(b.0) ==> BlockLen(b.0, b.1) == BLOCK_LEN
      ensures b.1 + 1 == Blocks(b.0) ==> b.1 * BLOCK_LEN + BlockLen(b.0, b.1) == PieceLen(b.0)
    {}

    /** Every byte of a piece is asked for by the request for exactly one block. */
    lemma RequestsTile(index: nat, o: nat, k: nat)
      requires o < PieceLen(index)
      ensures o / BLOCK_LEN < Blocks(index)
      ensures var r := RequestFor((index, k));
        (r.index == index && r.begin <= o < r.begin + r.length) <==> k == o / BLOCK_LEN
    {}

    /** Distinct blocks occupy disjoint byte ranges. */
    lemma BlocksApart(a: Block, b: Block)
      requires Valid() && InRange(a) && InRange(b) && a != b
      ensures BlockStart(a) + BlockLen(a.0, a.1) <= BlockStart(b) || BlockStart(b) + BlockLen(b.0, b.1) <= BlockStart(a)
    {
      BlockInside(a);
      BlockInside(b);
      if a.0 < b.0 { PiecesApart(a.0, b.0); }
      if b.0 < a.0 { PiecesApart(b.0, a.0); }
    }
  }

  lemma MulMonotone(a: int, b: int, c: int)
    requires a <= b && c >= 0
    ensures a * c <= b * c
  {
    assert (b - a) * c >= 0;
  }
}
