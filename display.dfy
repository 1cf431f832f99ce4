/** The fallbacks the movie cards and the detail view apply to missing data. */
module Display {

  /** The value the database puts in a field it has no data for. */
  const NotAvailable := "N/A"

  /** The image shown for a movie without a poster. */
  const PlaceholderPoster := "https://via.placeholder.com/300x450?text=No+Image"

  /** The text shown on a card for a movie without a rating (an en dash). */
  const NoRating := "\U{2013}"

  /** The image source of a card or of the detail view: the poster itself, or
      the placeholder when the poster is `"N/A"`. */
  function PosterSource(poster: string): (src: string)
    ensures src != NotAvailable
    ensures src == poster || src == PlaceholderPoster
    ensures poster != NotAvailable ==> src == poster
  {
    if poster != NotAvailable then poster else PlaceholderPoster
  }

  /** The rating line of a card: the rating itself, or a dash when it is `"N/A"`. */
  function RatingText(rating: string): (text: string)
    ensures text != NotAvailable
    ensures text == rating || text == NoRating
    ensures rating != NotAvailable ==> text == rating
  {
    if rating != NotAvailable then rating else NoRating
  }
}
