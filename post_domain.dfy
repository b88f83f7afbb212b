/** The post record and its images (comments are not modelled). */
module PostDomain {
  import opened GoTypes

  datatype PostImage = PostImage(id: string, postId: string, url: string, createdAt: Instant)

  datatype Post = Post(
    id: string,
    title: string,
    body: string,
    images: seq<PostImage>,
    creatorId: string,
    createdAt: Instant,
    updatedAt: Instant,
    views: int,
    likes: int,
    stars: int,
    commentNumber: int)

  /** The zero value the service returns beside an error. */
  const NoPost := Post("", "", "", [], "", 0, 0, 0, 0, 0, 0)
}
